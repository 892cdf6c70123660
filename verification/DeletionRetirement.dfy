/**
 What a deletion leaves of the users' credentials once it is carried out, and how far the
 preview foretells it.
 */
module DeletionRetirement {
  import opened Common
  import opened PathGraph
  import opened PathChains
  import opened PathAccess
  import opened PathGrants
  import opened DeletionImpact

  // ----- Retirement -----

  /** The paths of the user's remaining grants. */
  function RemainingPaths(t: Tables, d: Deletion, affected: set<PathId>, grants: seq<Grant>, user: string): set<PathId> {
    set i | 0 <= i < |grants| && grants[i].user == user && Remains(t, d, affected, grants[i]) :: grants[i].path
  }

  /** Retiring a node or a proxy reconciles every user with a grant on an affected path; only
      users whose grant is enabled are reconciled when a path is deleted. Deleted users are not. */
  predicate Reconciles(d: Deletion, affected: set<PathId>, grants: seq<Grant>, user: string) {
    && Some(user) != d.user
    && exists g <- grants :: g.user == user && !g.deleted && g.path in affected && (d.path.None? || g.enabled)
  }

  /** A credential's row once the deletion is carried out: archived with its proxy, or
      disabled when its user is reconciled and dials over the proxy no more. */
  ghost function Leftover(t: Tables, d: Deletion, affected: set<PathId>, grants: seq<Grant>, c: CredentialRow): CredentialRow
    requires WellFormed(t)
  {
    if c.deleted then c
    else if c.proxy in d.targets then c.(enabled := false, deleted := true)
    else if Reconciles(d, affected, grants, c.user) && c.enabled && c.proxy in t.proxies && !t.proxies[c.proxy].retired
      && c.proxy !in Needed(t, d, affected, grants, c.user) then c.(enabled := false)
    else c
  }

  /** The proxies on the whole chains of the user's remaining grants in service. */
  ghost function Needed(t: Tables, d: Deletion, affected: set<PathId>, grants: seq<Grant>, user: string): set<ProxyId>
    requires WellFormed(t)
  {
    Hops(t, LiveAmong(t, RemainingPaths(t, d, affected, grants, user)))
  }

  lemma NeededMeans(t: Tables, d: Deletion, affected: set<PathId>, grants: seq<Grant>, user: string, p: ProxyId)
    requires WellFormed(t) && (forall g <- grants :: g.path in t.paths) && Some(user) != d.user
    ensures p in Needed(t, d, affected, grants, user) <==>
      exists g <- grants :: g.user == user && !g.deleted && g.enabled && g.path !in affected && DialsOver(t, g.path, p)
        && t.paths[g.path].enabled && t.endpoints[t.paths[g.path].endpoint].enabled
        && !t.proxies[t.endpoints[t.paths[g.path].endpoint].proxy].retired
  {
    var live := LiveAmong(t, RemainingPaths(t, d, affected, grants, user));
    InHopsIff(t, live, p);
    hide Hops, DialsOver;
    if root :| root in live && DialsOver(t, root, p) {
      var j :| 0 <= j < |grants| && grants[j].user == user && Remains(t, d, affected, grants[j]) && grants[j].path == root;
      assert grants[j] in grants;
    }
    forall g | g in grants && g.user == user && !g.deleted && g.enabled && g.path !in affected && Live(t, g.path)
      ensures g.path in live
    {
      var j :| 0 <= j < |grants| && grants[j] == g;
      assert Remains(t, d, affected, grants[j]);
    }
  }

  /** Users to reconcile, in the transaction of the deletion. */
  method UsersToReconcile(d: Deletion, affected: set<PathId>, grants: seq<Grant>) returns (users: set<string>)
    ensures forall u :: u in users <==> Reconciles(d, affected, grants, u)
  {
    users := {};
    for i := 0 to |grants|
      invariant forall u :: u in users <==> Reconciles(d, affected, grants[..i], u)
    {
      var g := grants[i];
      ReconcilesOneMore(d, affected, grants, i);
      if !g.deleted && g.path in affected && (d.path.None? || g.enabled) && Some(g.user) != d.user {
        users := users + {g.user};
      }
    }
    assert grants[..|grants|] == grants;
  }

  lemma ReconcilesOneMore(d: Deletion, affected: set<PathId>, grants: seq<Grant>, i: nat)
    requires i < |grants|
    ensures var g := grants[i];
      forall u :: Reconciles(d, affected, grants[..i + 1], u) <==>
        || Reconciles(d, affected, grants[..i], u)
        || (u == g.user && Some(u) != d.user && !g.deleted && g.path in affected && (d.path.None? || g.enabled))
  {
    assert grants[..i + 1] == grants[..i] + [grants[i]];
  }

  /** The rows one reconciled user leaves: enabled credentials of proxies in service are
      disabled unless `needed`. */
  method DisableUnneeded(t: Tables, user: string, needed: set<ProxyId>, rows: seq<CredentialRow>) returns (after: seq<CredentialRow>)
    ensures |after| == |rows|
    ensures forall i :: 0 <= i < |rows| ==>
      var c := rows[i];
      after[i] == if c.user == user && !c.deleted && c.enabled && c.proxy in t.proxies && !t.proxies[c.proxy].retired
        && c.proxy !in needed then c.(enabled := false) else c
  {
    after := rows;
    for i := 0 to |rows|
      invariant |after| == |rows|
      invariant forall j :: 0 <= j < i ==>
        var c := rows[j];
        after[j] == if c.user == user && !c.deleted && c.enabled && c.proxy in t.proxies && !t.proxies[c.proxy].retired
          && c.proxy !in needed then c.(enabled := false) else c
      invariant forall j :: i <= j < |rows| ==> after[j] == rows[j]
    {
      var c := rows[i];
      if c.user == user && !c.deleted && c.proxy in t.proxies && !t.proxies[c.proxy].retired {
        if c.enabled && c.proxy !in needed {
          after := after[i := c.(enabled := false)];
        }
      }
    }
  }

  /** Archives the credentials of deleted proxies, then reconciles the users who lost a
      grant. The grants on affected paths are archived by then; all others are untouched. */
  method RetireCredentials(t: Tables, d: Deletion, affected: set<PathId>, grants: seq<Grant>, credentials: seq<CredentialRow>)
    returns (after: seq<CredentialRow>)
    requires WellFormed(t) && forall g <- grants :: g.path in t.paths
    ensures |after| == |credentials|
    ensures forall i :: 0 <= i < |credentials| ==> after[i] == Leftover(t, d, affected, grants, credentials[i])
    ensures forall i :: 0 <= i < |credentials| ==>
      var c, r := credentials[i], after[i];
      && r == c.(enabled := r.enabled, deleted := r.deleted)
      && (r.deleted <==> c.deleted || c.proxy in d.targets)
      && (!c.deleted && c.enabled && !r.enabled && !r.deleted <==>
            && !c.deleted && c.enabled && c.proxy !in d.targets && Some(c.user) != d.user
            && c.proxy in t.proxies && !t.proxies[c.proxy].retired
            && (exists g <- grants :: g.user == c.user && !g.deleted && g.path in affected && (d.path.None? || g.enabled))
            && !exists g <- grants :: g.user == c.user && !g.deleted && g.enabled && g.path !in affected && DialsOver(t, g.path, c.proxy)
                 && t.paths[g.path].enabled && t.endpoints[t.paths[g.path].endpoint].enabled
                 && !t.proxies[t.endpoints[t.paths[g.path].endpoint].proxy].retired)
  {
    hide Needed, DialsOver;
    after := [];
    for i := 0 to |credentials|
      invariant |after| == i
      invariant forall j :: 0 <= j < i ==> after[j] == Archived(d, credentials[j])
    {
      var c := credentials[i];
      after := after + [if !c.deleted && c.proxy in d.targets then c.(enabled := false, deleted := true) else c];
    }
    var users := UsersToReconcile(d, affected, grants);
    var left := users;
    while left != {}
      invariant left <= users && |after| == |credentials|
      invariant forall j :: 0 <= j < |credentials| ==>
        after[j] == if credentials[j].user in users && credentials[j].user !in left
          then Leftover(t, d, affected, grants, credentials[j]) else Archived(d, credentials[j])
    {
      var user :| user in left;
      var live := LiveRoots(t, RemainingPaths(t, d, affected, grants, user));
      var needed := CollectHops(t, live);
      NeededIs(t, d, affected, grants, user);
      after := DisableUnneeded(t, user, needed, after);
      left := left - {user};
    }
    forall i | 0 <= i < |credentials|
      ensures after[i] == Leftover(t, d, affected, grants, credentials[i])
    {
      if credentials[i].user !in users {
        assert !Reconciles(d, affected, grants, credentials[i].user);
      }
    }
    forall i | 0 <= i < |credentials| && Some(credentials[i].user) != d.user {
      NeededMeans(t, d, affected, grants, credentials[i].user, credentials[i].proxy);
    }
  }

  function Archived(d: Deletion, c: CredentialRow): CredentialRow {
    if !c.deleted && c.proxy in d.targets then c.(enabled := false, deleted := true) else c
  }

  lemma NeededIs(t: Tables, d: Deletion, affected: set<PathId>, grants: seq<Grant>, user: string)
    requires WellFormed(t)
    ensures Needed(t, d, affected, grants, user) == Hops(t, LiveAmong(t, RemainingPaths(t, d, affected, grants, user)))
  {
  }

  // ----- Preview and retirement -----

  lemma PrefixOfIsChainIff(t: Tables, d: Deletion, affected: set<PathId>, p: PathId)
    requires WellFormed(t) && p in t.paths && !Affected(t, d, p)
    requires forall q <- t.paths :: q in affected <==> Affected(t, d, q)
    ensures Ends(t.paths, p) && PrefixOf(t, affected, p) <= ChainOf(t.paths, p)
    ensures PrefixOf(t, affected, p) == ChainOf(t.paths, p) <==> forall q <- ChainOf(t.paths, p) :: HasProxy(t, q) && Live(t, q)
    ensures PrefixOf(t, affected, p) != {} ==> HasProxy(t, p) && Live(t, p)
  {
    assert Ends(t.paths, p);
    var n: nat :| EndsWithin(t.paths, p, n) && ChainOf(t.paths, p) == Chain(t.paths, p, n)
      && PrefixOf(t, affected, p) == Prefix(t, affected, p, n);
    PrefixIsChainIff(t, d, affected, p, n);
    PrefixInChain(t, affected, p, n);
    ChainInside(t.paths, p, n);
  }

  /** What the preview requires, retirement requires too: it never spares a credential
      that will be disabled. What only retirement requires lies behind a hop, on the chain
      of a remaining live grant, that is out of service. */
  lemma PreviewAgainstRetirement(t: Tables, d: Deletion, affected: set<PathId>, grants: seq<Grant>, user: string, p: ProxyId)
    requires WellFormed(t) && affected <= t.paths.Keys && forall q <- t.paths :: q in affected <==> Affected(t, d, q)
    ensures var roots := RemainingPaths(t, d, affected, grants, user);
      && roots <= t.paths.Keys
      && (p in Required(t, d, affected, grants, |grants|, user) ==> p in Hops(t, LiveAmong(t, roots)))
      && (p in Hops(t, LiveAmong(t, roots)) && p !in Required(t, d, affected, grants, |grants|, user) ==>
            exists root <- LiveAmong(t, roots) :: exists q <- ChainOf(t.paths, root) :: !Live(t, q))
  {
    hide Affected, Live, PrefixOf;
    var roots := RemainingPaths(t, d, affected, grants, user);
    RequiredByAGrant(t, d, affected, grants, |grants|, user, p);
    if p in Required(t, d, affected, grants, |grants|, user) {
      var j :| 0 <= j < |grants| && grants[j].user == user && Remains(t, d, affected, grants[j]) &&
        p in ProxiesOf(t, PrefixOf(t, affected, grants[j].path));
      PrefixOfIsChainIff(t, d, affected, grants[j].path);
      assert grants[j].path in LiveAmong(t, roots);
    } else if p in Hops(t, LiveAmong(t, roots)) {
      var q :| q in Closure(t.paths, LiveAmong(t, roots)) && ProxyOf(t, q) == p;
      var root :| root in LiveAmong(t, roots) && q in ChainOf(t.paths, root);
      var j :| 0 <= j < |grants| && grants[j].user == user && Remains(t, d, affected, grants[j]) && grants[j].path == root;
      PrefixOfIsChainIff(t, d, affected, root);
      assert p !in ProxiesOf(t, PrefixOf(t, affected, root));
    }
  }

  /** Every proxy in service on the chain of a remaining live grant is on the part in service
      of some remaining grant's chain. */
  ghost predicate NothingBehindAGap(t: Tables, d: Deletion, affected: set<PathId>, grants: seq<Grant>, user: string)
    requires WellFormed(t) && affected <= t.paths.Keys
  {
    forall root <- LiveAmong(t, RemainingPaths(t, d, affected, grants, user)), q <- ChainOf(t.paths, root) ::
      t.proxies[ProxyOf(t, q)].retired || exists j :: 0 <= j < |grants| && Serves(t, d, affected, grants[j], user, ProxyOf(t, q))
  }

  ghost predicate Serves(t: Tables, d: Deletion, affected: set<PathId>, g: Grant, user: string, p: ProxyId)
    requires WellFormed(t)
  {
    g.user == user && Remains(t, d, affected, g) && p in ProxiesOf(t, PrefixOf(t, affected, g.path))
  }

  lemma RequiredIsServed(t: Tables, d: Deletion, affected: set<PathId>, grants: seq<Grant>, user: string, p: ProxyId)
    requires WellFormed(t)
    ensures p in Required(t, d, affected, grants, |grants|, user) <==>
      exists j :: 0 <= j < |grants| && Serves(t, d, affected, grants[j], user, p)
  {
    hide PrefixOf, ProxiesOf, Required;
    RequiredByAGrant(t, d, affected, grants, |grants|, user, p);
    if j :| 0 <= j < |grants| && Serves(t, d, affected, grants[j], user, p) {
      assert grants[j].user == user && Remains(t, d, affected, grants[j]);
    }
    if p in Required(t, d, affected, grants, |grants|, user) {
      var j :| 0 <= j < |grants| && grants[j].user == user && Remains(t, d, affected, grants[j]) &&
        p in ProxiesOf(t, PrefixOf(t, affected, grants[j].path));
      assert Serves(t, d, affected, grants[j], user, p);
    }
  }

  lemma HopsAreUntouched(t: Tables, d: Deletion, affected: set<PathId>, roots: set<PathId>, p: ProxyId)
    requires WellFormed(t) && affected <= t.paths.Keys && (forall q <- t.paths :: q in affected <==> Affected(t, d, q))
    requires roots <= t.paths.Keys && roots !! affected && p in Hops(t, roots)
    ensures p in t.proxies && p !in d.targets
    ensures exists root <- roots, q <- ChainOf(t.paths, root) :: ProxyOf(t, q) == p
  {
    hide Affected;
    var q :| q in Closure(t.paths, roots) && ProxyOf(t, q) == p;
    var root :| root in roots && q in ChainOf(t.paths, root);
    assert Ends(t.paths, root);
    var n: nat :| EndsWithin(t.paths, root, n) && ChainOf(t.paths, root) == Chain(t.paths, root, n);
    UnaffectedChain(t, d, root, n, q);
    if p in d.targets {
      SeedIsAffected(t, d, q);
    }
  }

  /** Credentials of retired proxies are archived. */
  predicate Listable(t: Tables, c: CredentialRow) {
    c.proxy in t.proxies && (t.proxies[c.proxy].retired ==> c.deleted)
  }

  /** Effect `e`, shown for row `c`, is what the deletion does to it when it leaves `r`. */
  predicate Foretells(d: Deletion, e: Effect, c: CredentialRow, r: CredentialRow) {
    && (e == WillBeUnavailable <==> !c.deleted && Some(c.user) == d.user)
    && (e == WillBeArchived <==> Some(c.user) != d.user && !c.deleted && r.deleted)
    && (e == WillBeDisabled <==> Some(c.user) != d.user && !c.deleted && !r.deleted && c.enabled && !r.enabled)
  }

  ghost function Shown(t: Tables, d: Deletion, affected: set<PathId>, grants: seq<Grant>, c: CredentialRow): Effect
    requires WellFormed(t)
  {
    EffectOn(d, AffectedUsers(d, affected, grants), Required(t, d, affected, grants, |grants|, c.user), c)
  }

  ghost predicate IsForetold(t: Tables, d: Deletion, affected: set<PathId>, grants: seq<Grant>, c: CredentialRow)
    requires WellFormed(t)
  {
    Foretells(d, Shown(t, d, affected, grants, c), c, Leftover(t, d, affected, grants, c))
  }

  /** No proxy is left whose credential the preview could announce as disabled. */
  ghost predicate NothingToDisable(t: Tables, d: Deletion, affected: set<PathId>, grants: seq<Grant>, user: string)
    requires WellFormed(t)
  {
    forall p <- t.proxies ::
      t.proxies[p].retired || p in d.targets || exists j :: 0 <= j < |grants| && Serves(t, d, affected, grants[j], user, p)
  }

  /** Whom a deletion does not concern, or concerns altogether, is shown correctly. */
  lemma OthersAreForetold(t: Tables, d: Deletion, affected: set<PathId>, grants: seq<Grant>, c: CredentialRow)
    requires WellFormed(t) && (Some(c.user) == d.user || !LosesAny(d, affected, grants, c.user))
    ensures IsForetold(t, d, affected, grants, c)
  {
    hide Required, Needed, AffectedUsers;
    if Some(c.user) != d.user {
      LosersAre(d, affected, grants, c.user);
    }
  }

  /** The user has a grant, enabled or not, on a path the deletion affects. */
  predicate LosesAny(d: Deletion, affected: set<PathId>, grants: seq<Grant>, user: string) {
    exists g <- grants :: g.user == user && !g.deleted && g.path in affected
  }

  /** For a user who loses a grant and stays. */
  lemma ForetoldIff(t: Tables, d: Deletion, affected: set<PathId>, grants: seq<Grant>, c: CredentialRow)
    requires WellFormed(t) && Some(c.user) != d.user && LosesAny(d, affected, grants, c.user)
    ensures IsForetold(t, d, affected, grants, c) <==>
      (!c.deleted && c.proxy !in d.targets && c.enabled ==>
        (c.proxy !in Required(t, d, affected, grants, |grants|, c.user) <==>
          (Reconciles(d, affected, grants, c.user) && c.proxy in t.proxies && !t.proxies[c.proxy].retired
           && c.proxy !in Needed(t, d, affected, grants, c.user))))
  {
    hide Required, Needed, AffectedUsers;
    LosersAre(d, affected, grants, c.user);
  }

  lemma ReconciledUserIff(t: Tables, d: Deletion, affected: set<PathId>, grants: seq<Grant>, user: string)
    requires WellFormed(t) && affected <= t.paths.Keys && forall q <- t.paths :: q in affected <==> Affected(t, d, q)
    requires Reconciles(d, affected, grants, user)
    ensures (forall c: CredentialRow | c.user == user && Listable(t, c) :: IsForetold(t, d, affected, grants, c))
      <==> NothingBehindAGap(t, d, affected, grants, user)
  {
    hide Affected, PrefixOf, ProxiesOf, Hops, Required, IsForetold;
    var live := LiveAmong(t, RemainingPaths(t, d, affected, grants, user));
    if NothingBehindAGap(t, d, affected, grants, user) {
      forall c: CredentialRow | c.user == user && Listable(t, c)
        ensures IsForetold(t, d, affected, grants, c)
      {
        ShownOrRetired(t, d, affected, grants, user, c.proxy);
        ForetoldIff(t, d, affected, grants, c);
      }
    } else {
      var root, q :| root in live && q in ChainOf(t.paths, root) && !t.proxies[ProxyOf(t, q)].retired
        && !exists j :: 0 <= j < |grants| && Serves(t, d, affected, grants[j], user, ProxyOf(t, q));
      var c := CredentialRow(user, ProxyOf(t, q), true, false);
      RequiredIsServed(t, d, affected, grants, user, c.proxy);
      OnAChain(t, live, root, q);
      HopsAreUntouched(t, d, affected, live, c.proxy);
      ForetoldIff(t, d, affected, grants, c);
      assert Listable(t, c) && !IsForetold(t, d, affected, grants, c);
    }
  }

  lemma UnreconciledUserIff(t: Tables, d: Deletion, affected: set<PathId>, grants: seq<Grant>, user: string)
    requires WellFormed(t) && Some(user) != d.user && LosesAny(d, affected, grants, user)
    requires !Reconciles(d, affected, grants, user)
    ensures (forall c: CredentialRow | c.user == user && Listable(t, c) :: IsForetold(t, d, affected, grants, c))
      <==> NothingToDisable(t, d, affected, grants, user)
  {
    hide PrefixOf, ProxiesOf, Required, Needed, IsForetold, Serves;
    forall c: CredentialRow | c.user == user
      ensures IsForetold(t, d, affected, grants, c) <==>
        (!c.deleted && c.proxy !in d.targets && c.enabled ==>
          exists j :: 0 <= j < |grants| && Serves(t, d, affected, grants[j], user, c.proxy))
    {
      ForetoldIff(t, d, affected, grants, c);
      RequiredIsServed(t, d, affected, grants, user, c.proxy);
    }
    if !NothingToDisable(t, d, affected, grants, user) {
      var p :| p in t.proxies && !t.proxies[p].retired && p !in d.targets
        && !exists j :: 0 <= j < |grants| && Serves(t, d, affected, grants[j], user, p);
      var c := CredentialRow(user, p, true, false);
      assert Listable(t, c) && !IsForetold(t, d, affected, grants, c);
    }
  }

  /** The preview foretells what the deletion leaves of every credential a user may have, if
      and only if nothing is hidden behind a gap; or, for a user who is not reconciled since
      only disabled grants on the deleted path are lost, if and only if remaining grants
      serve every proxy. A user who loses no grant, or is deleted, is always shown correctly. */
  lemma PreviewIsExactIff(t: Tables, d: Deletion, affected: set<PathId>, grants: seq<Grant>, user: string)
    requires WellFormed(t) && affected <= t.paths.Keys && forall q <- t.paths :: q in affected <==> Affected(t, d, q)
    ensures (forall c: CredentialRow | c.user == user && Listable(t, c) ::
        Foretells(d, Shown(t, d, affected, grants, c), c, Leftover(t, d, affected, grants, c))) <==>
      if Some(user) == d.user || !LosesAny(d, affected, grants, user) then true
      else if Reconciles(d, affected, grants, user) then NothingBehindAGap(t, d, affected, grants, user)
      else NothingToDisable(t, d, affected, grants, user)
  {
    forall c: CredentialRow
      ensures IsForetold(t, d, affected, grants, c) <==>
        Foretells(d, Shown(t, d, affected, grants, c), c, Leftover(t, d, affected, grants, c))
    {
    }
    hide Affected, NothingBehindAGap, NothingToDisable, Foretells, IsForetold;
    if Some(user) == d.user || !LosesAny(d, affected, grants, user) {
      forall c: CredentialRow | c.user == user
        ensures IsForetold(t, d, affected, grants, c)
      {
        OthersAreForetold(t, d, affected, grants, c);
      }
    } else if Reconciles(d, affected, grants, user) {
      ReconciledUserIff(t, d, affected, grants, user);
    } else {
      UnreconciledUserIff(t, d, affected, grants, user);
    }
  }

  lemma OnAChain(t: Tables, roots: set<PathId>, root: PathId, q: PathId)
    requires WellFormed(t) && roots <= t.paths.Keys && root in roots && q in ChainOf(t.paths, root)
    ensures q in t.paths && ProxyOf(t, q) in Hops(t, roots)
  {
    assert q in Closure(t.paths, roots);
  }

  lemma ShownOrRetired(t: Tables, d: Deletion, affected: set<PathId>, grants: seq<Grant>, user: string, p: ProxyId)
    requires WellFormed(t) && affected <= t.paths.Keys && forall q <- t.paths :: q in affected <==> Affected(t, d, q)
    requires NothingBehindAGap(t, d, affected, grants, user)
    ensures var shown := Required(t, d, affected, grants, |grants|, user);
      var needed := Hops(t, LiveAmong(t, RemainingPaths(t, d, affected, grants, user)));
      (p in shown ==> p in needed) && (p in needed && p !in shown ==> p in t.proxies && t.proxies[p].retired)
  {
    hide Affected, PrefixOf, ProxiesOf, Hops, Required;
    var live := LiveAmong(t, RemainingPaths(t, d, affected, grants, user));
    PreviewAgainstRetirement(t, d, affected, grants, user, p);
    if p in Hops(t, live) {
      HopsAreUntouched(t, d, affected, live, p);
      RequiredIsServed(t, d, affected, grants, user, p);
    }
  }

  /** Path p dials through the disabled path q; path r is on the proxy to be deleted. */
  const GAP := Tables(
    map["p" := Path("p", "", "ep", Some("q"), true, true),
        "q" := Path("q", "", "eq", None, false, true),
        "r" := Path("r", "", "er", None, true, true)],
    map["ep" := PathAccess.Endpoint("x", true, true),
        "eq" := PathAccess.Endpoint("y", true, true),
        "er" := PathAccess.Endpoint("z", true, true)],
    map["x" := Proxy("x", "n", false), "y" := Proxy("y", "n", false), "z" := Proxy("z", "n", false)])

  const GAP_DELETION := Deletion({"z"}, None, None)

  const GAP_GRANTS := [Grant("u", "p", true, false), Grant("u", "r", true, false)]

  lemma GapIsWellFormed()
    ensures WellFormed(GAP) && EndsWithin(GAP.paths, "q", 1) && EndsWithin(GAP.paths, "p", 2) && EndsWithin(GAP.paths, "r", 1)
  {
    var g := GAP.paths;
    assert EndsWithin(g, "q", 1) && EndsWithin(g, "p", 2) && EndsWithin(g, "r", 1);
    assert forall p <- g :: Ends(g, p);
  }

  lemma GapAffectsOnlyR()
    ensures forall p <- GAP.paths :: Affected(GAP, GAP_DELETION, p) <==> p == "r"
  {
    GapIsWellFormed();
    SeedIsAffected(GAP, GAP_DELETION, "r");
    ChainIsReached(GAP.paths, "p", 2, "r");
    ChainIsReached(GAP.paths, "q", 1, "r");
  }

  lemma GapHops()
    ensures WellFormed(GAP) && Hops(GAP, {"p"}) == {"x", "y"} && LiveAmong(GAP, {"p"}) == {"p"}
  {
    GapIsWellFormed();
    HopsUnfold(GAP, "p");
    HopsUnfold(GAP, "q");
  }

  lemma GapPrefix()
    ensures WellFormed(GAP) && PrefixOf(GAP, {"r"}, "p") == {"p"} && ProxiesOf(GAP, {"p"}) == {"x"}
  {
    GapIsWellFormed();
    assert Ends(GAP.paths, "p");
    var n: nat :| EndsWithin(GAP.paths, "p", n) && PrefixOf(GAP, {"r"}, "p") == Prefix(GAP, {"r"}, "p", n);
    assert HasProxy(GAP, "p") && Live(GAP, "p") && !Live(GAP, "q");
    assert Prefix(GAP, {"r"}, "q", n - 1) == {};
    assert Prefix(GAP, {"r"}, "p", n) == {"p"} + Prefix(GAP, {"r"}, "q", n - 1);
  }

  lemma GapGrants()
    ensures "u" in AffectedUsers(GAP_DELETION, {"r"}, GAP_GRANTS)
    ensures RemainingPaths(GAP, GAP_DELETION, {"r"}, GAP_GRANTS, "u") == {"p"}
  {
    assert GAP_GRANTS[1].user == "u" && LosesGrant(GAP_DELETION, {"r"}, GAP_GRANTS[1]);
    assert GAP_GRANTS[0].path == "p" && Remains(GAP, GAP_DELETION, {"r"}, GAP_GRANTS[0]);
  }

  lemma GapRequired()
    ensures WellFormed(GAP) && "y" !in Required(GAP, GAP_DELETION, {"r"}, GAP_GRANTS, 2, "u")
  {
    GapPrefix();
    hide PrefixOf, ProxiesOf, Required;
    RequiredByAGrant(GAP, GAP_DELETION, {"r"}, GAP_GRANTS, 2, "u", "y");
  }

  /** Behind a hop out of service the preview announces what retirement does not do: the
      credential for y is listed as disabled, and stays as it is. */
  lemma PreviewDiffersBehindAGap()
    ensures WellFormed(GAP) && forall p <- GAP.paths :: p in {"r"} <==> Affected(GAP, GAP_DELETION, p)
    ensures var c := CredentialRow("u", "y", true, false);
      && Shown(GAP, GAP_DELETION, {"r"}, GAP_GRANTS, c) == WillBeDisabled
      && Leftover(GAP, GAP_DELETION, {"r"}, GAP_GRANTS, c) == c
  {
    GapAffectsOnlyR();
    GapHops();
    GapGrants();
    GapRequired();
    hide Affected, Hops, LiveAmong, AffectedUsers, RemainingPaths, Required, WellFormed;
  }

  const PATH_DELETION := Deletion({}, Some("r"), None)

  const DISABLED_GRANT := [Grant("u", "r", false, false)]

  /** Deleting a path does not reconcile a user whose access to it is disabled, but the
      preview announces the credential for z as disabled. */
  lemma PreviewDiffersForADisabledAccess()
    ensures WellFormed(GAP) && forall p <- GAP.paths :: p in {"r"} <==> Affected(GAP, PATH_DELETION, p)
    ensures var c := CredentialRow("u", "z", true, false);
      && Shown(GAP, PATH_DELETION, {"r"}, DISABLED_GRANT, c) == WillBeDisabled
      && Leftover(GAP, PATH_DELETION, {"r"}, DISABLED_GRANT, c) == c
  {
    GapIsWellFormed();
    SeedIsAffected(GAP, PATH_DELETION, "r");
    ChainIsReached(GAP.paths, "p", 2, "r");
    ChainIsReached(GAP.paths, "q", 1, "r");
    DisabledGrant();
    hide Affected, AffectedUsers, Required, WellFormed, Needed;
  }

  lemma DisabledGrant()
    ensures WellFormed(GAP) && "u" in AffectedUsers(PATH_DELETION, {"r"}, DISABLED_GRANT)
    ensures Required(GAP, PATH_DELETION, {"r"}, DISABLED_GRANT, 1, "u") == {}
    ensures !Reconciles(PATH_DELETION, {"r"}, DISABLED_GRANT, "u")
  {
    GapIsWellFormed();
    assert DISABLED_GRANT[0].user == "u" && LosesGrant(PATH_DELETION, {"r"}, DISABLED_GRANT[0]);
    assert Required(GAP, PATH_DELETION, {"r"}, DISABLED_GRANT, 0, "u") == {};
  }
}
