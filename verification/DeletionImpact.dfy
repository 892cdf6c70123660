/**
 The preview of what deleting a node, a proxy, a path or a user takes along: the
 affected paths as a fixpoint over the dialer graph, and the credentials that no
 remaining grant needs.
 */
module DeletionImpact {
  import opened Common
  import opened PathGraph
  import opened PathChains
  import opened PathAccess

  /** `targets` are the proxies deleted with the resource; a deleted path is itself a seed. */
  datatype Deletion = Deletion(targets: set<ProxyId>, path: Option<PathId>, user: Option<string>)

  datatype Grant = Grant(user: string, path: PathId, enabled: bool, deleted: bool)

  datatype CredentialRow = CredentialRow(user: string, proxy: ProxyId, enabled: bool, deleted: bool)

  datatype Effect = Unlisted | WillBeArchived | WillBeDisabled | WillBeUnavailable

  // ----- Affected paths -----

  predicate Seed(t: Tables, d: Deletion, p: PathId) {
    && p in t.paths
    && ((t.paths[p].endpoint in t.endpoints && t.endpoints[t.paths[p].endpoint].proxy in d.targets) || d.path == Some(p))
  }

  /** The chain of `p` reaches something that is deleted. */
  ghost predicate Affected(t: Tables, d: Deletion, p: PathId) {
    exists q: PathId :: Seed(t, d, q) && Reached(t.paths, p, q)
  }

  lemma DialsAffected(t: Tables, d: Deletion, p: PathId)
    requires p in t.paths && t.paths[p].dialer.Some? && Affected(t, d, t.paths[p].dialer.value)
    ensures Affected(t, d, p)
  {
    var dialer := t.paths[p].dialer.value;
    var q :| Seed(t, d, q) && Reached(t.paths, dialer, q);
    var k: nat :| Hop(t.paths, dialer, k) == Some(q);
    assert Hop(t.paths, p, k + 1) == Some(q);
  }

  /** A set that holds the seeds and is closed under dialing holds every affected path. */
  lemma {:induction false} ClosedHoldsAffected(t: Tables, d: Deletion, found: set<PathId>, p: PathId, q: PathId, k: nat)
    requires forall s <- t.paths :: Seed(t, d, s) ==> s in found
    requires forall s <- t.paths :: t.paths[s].dialer.Some? && t.paths[s].dialer.value in found ==> s in found
    requires Seed(t, d, q) && Hop(t.paths, p, k) == Some(q)
    ensures p in found
    decreases k
  {
    if k > 0 {
      ClosedHoldsAffected(t, d, found, t.paths[p].dialer.value, q, k - 1);
    }
  }

  lemma FoundIsAffected(t: Tables, d: Deletion, found: set<PathId>)
    requires found <= t.paths.Keys && forall p <- found :: Affected(t, d, p)
    requires forall s <- t.paths :: Seed(t, d, s) ==> s in found
    requires forall s <- t.paths :: t.paths[s].dialer.Some? && t.paths[s].dialer.value in found ==> s in found
    ensures forall p <- t.paths :: p in found <==> Affected(t, d, p)
  {
    hide Seed, Hop;
    forall p <- t.paths | Affected(t, d, p)
      ensures p in found
    {
      var q :| Seed(t, d, q) && Reached(t.paths, p, q);
      var k: nat :| Hop(t.paths, p, k) == Some(q);
      ClosedHoldsAffected(t, d, found, p, q, k);
    }
  }

  lemma SeedIsAffected(t: Tables, d: Deletion, p: PathId)
    requires Seed(t, d, p)
    ensures Affected(t, d, p)
  {
    assert Hop(t.paths, p, 0) == Some(p);
    assert Reached(t.paths, p, p);
  }

  lemma AffectedMeans(t: Tables, d: Deletion)
    ensures forall p: PathId :: Affected(t, d, p) <==>
      exists q: PathId :: Reached(t.paths, p, q) && q in t.paths &&
        ((t.paths[q].endpoint in t.endpoints && t.endpoints[t.paths[q].endpoint].proxy in d.targets) || d.path == Some(q))
  {
    hide Reached;
    forall p: PathId
      ensures Affected(t, d, p) <==>
        exists q: PathId :: Reached(t.paths, p, q) && q in t.paths &&
          ((t.paths[q].endpoint in t.endpoints && t.endpoints[t.paths[q].endpoint].proxy in d.targets) || d.path == Some(q))
    {
      assert forall q: PathId :: Seed(t, d, q) <==>
        (q in t.paths &&
         ((t.paths[q].endpoint in t.endpoints && t.endpoints[t.paths[q].endpoint].proxy in d.targets) || d.path == Some(q)));
    }
  }

  /** Rounds over the list of paths until nothing is added. Each round that adds something
      leaves fewer paths, so the loop ends, whatever the graph looks like. */
  method FindAffected(t: Tables, d: Deletion, list: seq<PathId>) returns (affected: set<PathId>)
    requires forall p :: p in list <==> p in t.paths
    ensures affected <= t.paths.Keys && forall p <- t.paths :: p in affected <==> Affected(t, d, p)
    ensures forall p <- t.paths :: p in affected <==>
      exists q: PathId :: Reached(t.paths, p, q) && q in t.paths &&
        ((t.paths[q].endpoint in t.endpoints && t.endpoints[t.paths[q].endpoint].proxy in d.targets) || d.path == Some(q))
  {
    AffectedMeans(t, d);
    hide Affected, Seed;
    affected := {};
    for i := 0 to |list|
      invariant affected <= t.paths.Keys && forall p <- affected :: Affected(t, d, p)
      invariant forall j :: 0 <= j < i && Seed(t, d, list[j]) ==> list[j] in affected
    {
      if Seed(t, d, list[i]) {
        SeedIsAffected(t, d, list[i]);
        affected := affected + {list[i]};
      }
    }
    var changed := true;
    while changed
      invariant affected <= t.paths.Keys && forall p <- affected :: Affected(t, d, p)
      invariant forall p <- list :: Seed(t, d, p) ==> p in affected
      invariant !changed ==> forall p <- list :: t.paths[p].dialer.Some? && t.paths[p].dialer.value in affected ==> p in affected
      decreases t.paths.Keys - affected, changed
    {
      changed := false;
      ghost var before := affected;
      for i := 0 to |list|
        invariant before <= affected <= t.paths.Keys && forall p <- affected :: Affected(t, d, p)
        invariant if changed then affected != before else affected == before
        invariant !changed ==> forall j :: 0 <= j < i ==>
          t.paths[list[j]].dialer.Some? && t.paths[list[j]].dialer.value in affected ==> list[j] in affected
      {
        var p := list[i];
        if t.paths[p].dialer.Some? && t.paths[p].dialer.value in affected && p !in affected {
          DialsAffected(t, d, p);
          affected := affected + {p};
          changed := true;
        }
      }
    }
    FoundIsAffected(t, d, affected);
  }

  /** What dials through nothing deleted, dials through unaffected paths only. */
  lemma UnaffectedChain(t: Tables, d: Deletion, p: PathId, n: nat, q: PathId)
    requires EndsWithin(t.paths, p, n) && !Affected(t, d, p) && q in Chain(t.paths, p, n)
    ensures !Affected(t, d, q)
  {
    ChainIsReached(t.paths, p, n, q);
    forall s: PathId | Reached(t.paths, q, s)
      ensures Reached(t.paths, p, s)
    {
      var k: nat :| Hop(t.paths, p, k) == Some(q);
      var m: nat :| Hop(t.paths, q, m) == Some(s);
      HopCompose(t.paths, p, k, m);
      assert Hop(t.paths, p, k + m) == Some(s);
    }
  }

  // ----- Credentials still required -----

  /** The chain up to its first path that is affected or out of service. */
  function Prefix(t: Tables, affected: set<PathId>, p: PathId, n: nat): set<PathId>
    requires EndsWithin(t.paths, p, n)
    decreases n
  {
    if p in affected || !HasProxy(t, p) || !Live(t, p) then {}
    else {p} + if t.paths[p].dialer.Some? then Prefix(t, affected, t.paths[p].dialer.value, n - 1) else {}
  }

  lemma {:induction false} PrefixInChain(t: Tables, affected: set<PathId>, p: PathId, n: nat)
    requires EndsWithin(t.paths, p, n)
    ensures Prefix(t, affected, p, n) <= Chain(t.paths, p, n)
    decreases n
  {
    if t.paths[p].dialer.Some? {
      PrefixInChain(t, affected, t.paths[p].dialer.value, n - 1);
    }
  }

  /** The prefix is the whole chain exactly when every hop of an unaffected path is in
      service; affected hops cannot occur. */
  lemma {:induction false} PrefixIsChainIff(t: Tables, d: Deletion, affected: set<PathId>, p: PathId, n: nat)
    requires WellFormed(t) && EndsWithin(t.paths, p, n) && !Affected(t, d, p)
    requires forall q <- t.paths :: q in affected <==> Affected(t, d, q)
    ensures Prefix(t, affected, p, n) == Chain(t.paths, p, n) <==>
      forall q <- Chain(t.paths, p, n) :: q in t.paths && HasProxy(t, q) && Live(t, q)
    decreases n
  {
    hide Affected;
    ChainInside(t.paths, p, n);
    ChainWithoutHead(t.paths, p, n);
    PrefixInChain(t, affected, p, n);
    if t.paths[p].dialer.Some? {
      var dialer := t.paths[p].dialer.value;
      if Affected(t, d, dialer) {
        DialsAffected(t, d, p);
        assert false;
      }
      PrefixIsChainIff(t, d, affected, dialer, n - 1);
      PrefixInChain(t, affected, dialer, n - 1);
      ChainInside(t.paths, dialer, n - 1);
    }
  }

  /** A path is not on the chain behind it. */
  lemma ChainWithoutHead(g: Graph, p: PathId, n: nat)
    requires EndsWithin(g, p, n)
    ensures g[p].dialer.Some? ==> p !in Chain(g, g[p].dialer.value, n - 1)
  {
    if g[p].dialer.Some? && p in Chain(g, g[p].dialer.value, n - 1) {
      var dialer := g[p].dialer.value;
      ChainIsReached(g, dialer, n - 1, p);
      var k: nat :| Hop(g, dialer, k) == Some(p);
      assert Hop(g, p, k + 1) == Some(p);
      ReturningChainNeverEnds(g, p, k + 1, n);
    }
  }

  /** A grant that stays: neither deleted nor disabled, on an unaffected path. */
  predicate Remains(t: Tables, d: Deletion, affected: set<PathId>, g: Grant) {
    !g.deleted && g.enabled && g.path in t.paths && g.path !in affected && Some(g.user) != d.user
  }

  ghost function PrefixOf(t: Tables, affected: set<PathId>, p: PathId): (s: set<PathId>)
    requires Sound(t.paths) && p in t.paths
    ensures forall q <- s :: HasProxy(t, q) && Live(t, q)
  {
    assert Ends(t.paths, p);
    var n: nat :| EndsWithin(t.paths, p, n) && ChainOf(t.paths, p) == Chain(t.paths, p, n);
    PrefixIsLive(t, affected, p, n);
    Prefix(t, affected, p, n)
  }

  lemma {:induction false} PrefixIsLive(t: Tables, affected: set<PathId>, p: PathId, n: nat)
    requires EndsWithin(t.paths, p, n)
    ensures forall q <- Prefix(t, affected, p, n) :: HasProxy(t, q) && Live(t, q) && q !in affected
    decreases n
  {
    if t.paths[p].dialer.Some? {
      PrefixIsLive(t, affected, t.paths[p].dialer.value, n - 1);
    }
  }

  ghost function ProxiesOf(t: Tables, paths: set<PathId>): set<ProxyId>
    requires forall q <- paths :: HasProxy(t, q)
  {
    set q | q in paths :: ProxyOf(t, q)
  }

  /** The proxies the first `i` grants still require for `user`. */
  ghost function Required(t: Tables, d: Deletion, affected: set<PathId>, grants: seq<Grant>, i: nat, user: string): set<ProxyId>
    requires Sound(t.paths) && i <= |grants|
  {
    if i == 0 then {}
    else
      var g := grants[i - 1];
      Required(t, d, affected, grants, i - 1, user) +
        if g.user == user && Remains(t, d, affected, g) then ProxiesOf(t, PrefixOf(t, affected, g.path)) else {}
  }

  lemma {:induction false} RequiredByAGrant(t: Tables, d: Deletion, affected: set<PathId>, grants: seq<Grant>, i: nat,
                                            user: string, p: ProxyId)
    requires Sound(t.paths) && i <= |grants|
    ensures p in Required(t, d, affected, grants, i, user) <==>
      exists j :: 0 <= j < i && grants[j].user == user && Remains(t, d, affected, grants[j]) &&
        p in ProxiesOf(t, PrefixOf(t, affected, grants[j].path))
  {
    hide PrefixOf;
    if i > 0 {
      RequiredByAGrant(t, d, affected, grants, i - 1, user, p);
    }
  }

  // ----- The same told over hops -----

  /** A path the deletion spares, in service with its endpoint and its proxy. */
  predicate InUse(t: Tables, affected: set<PathId>, q: PathId) {
    && q in t.paths && q !in affected && t.paths[q].enabled
    && t.paths[q].endpoint in t.endpoints && t.endpoints[t.paths[q].endpoint].enabled
    && t.endpoints[t.paths[q].endpoint].proxy in t.proxies && !t.proxies[t.endpoints[t.paths[q].endpoint].proxy].retired
  }

  /** Dialing from `root` over paths in use only, `k` hops lead to `q`. */
  predicate InUseUpTo(t: Tables, affected: set<PathId>, root: PathId, k: nat, q: PathId) {
    && Hop(t.paths, root, k) == Some(q)
    && forall i: nat :: i <= k && Hop(t.paths, root, i).Some? ==> InUse(t, affected, Hop(t.paths, root, i).value)
  }

  /** Dialing from `root` over paths in use only comes by a path on the proxy. */
  ghost predicate StillDials(t: Tables, affected: set<PathId>, root: PathId, p: ProxyId) {
    exists k: nat, q: PathId :: InUseUpTo(t, affected, root, k, q) && t.endpoints[t.paths[q].endpoint].proxy == p
  }

  lemma OneHopMore(t: Tables, affected: set<PathId>, p: PathId, k: nat, q: PathId)
    requires InUse(t, affected, p) && t.paths[p].dialer.Some?
    ensures InUseUpTo(t, affected, p, k + 1, q) <==> InUseUpTo(t, affected, t.paths[p].dialer.value, k, q)
  {
    var d := t.paths[p].dialer.value;
    assert forall i: nat :: Hop(t.paths, p, i + 1) == Hop(t.paths, d, i);
    if InUseUpTo(t, affected, p, k + 1, q) {
      forall i: nat | i <= k && Hop(t.paths, d, i).Some?
        ensures InUse(t, affected, Hop(t.paths, d, i).value)
      {
        assert Hop(t.paths, p, i + 1) == Hop(t.paths, d, i);
      }
    }
    if InUseUpTo(t, affected, d, k, q) {
      forall i: nat | i <= k + 1 && Hop(t.paths, p, i).Some?
        ensures InUse(t, affected, Hop(t.paths, p, i).value)
      {
        if i > 0 {
          assert Hop(t.paths, p, i) == Hop(t.paths, d, i - 1);
        }
      }
    }
  }

  lemma {:induction false} PrefixIsInUse(t: Tables, affected: set<PathId>, p: PathId, n: nat, q: PathId)
    requires EndsWithin(t.paths, p, n)
    ensures q in Prefix(t, affected, p, n) <==> exists k: nat :: InUseUpTo(t, affected, p, k, q)
    decreases n
  {
    assert Hop(t.paths, p, 0) == Some(p);
    if InUse(t, affected, p) {
      assert InUseUpTo(t, affected, p, 0, p);
      if t.paths[p].dialer.Some? {
        var d := t.paths[p].dialer.value;
        PrefixIsInUse(t, affected, d, n - 1, q);
        if k: nat :| InUseUpTo(t, affected, d, k, q) {
          OneHopMore(t, affected, p, k, q);
        }
        if k: nat :| InUseUpTo(t, affected, p, k, q) && k > 0 {
          OneHopMore(t, affected, p, k - 1, q);
        }
      }
    }
  }

  lemma StillDialsIff(t: Tables, affected: set<PathId>, root: PathId, p: ProxyId)
    requires Sound(t.paths) && root in t.paths
    ensures p in ProxiesOf(t, PrefixOf(t, affected, root)) <==> StillDials(t, affected, root, p)
  {
    assert Ends(t.paths, root);
    var n: nat :| EndsWithin(t.paths, root, n) && PrefixOf(t, affected, root) == Prefix(t, affected, root, n);
    forall q: PathId
      ensures q in PrefixOf(t, affected, root) <==> exists k: nat :: InUseUpTo(t, affected, root, k, q)
    {
      PrefixIsInUse(t, affected, root, n, q);
    }
    hide PrefixOf;
    if p in ProxiesOf(t, PrefixOf(t, affected, root)) {
      var q :| q in PrefixOf(t, affected, root) && ProxyOf(t, q) == p;
      var k: nat :| InUseUpTo(t, affected, root, k, q);
      assert StillDials(t, affected, root, p);
    }
    if StillDials(t, affected, root, p) {
      var k: nat, q: PathId :| InUseUpTo(t, affected, root, k, q) && t.endpoints[t.paths[q].endpoint].proxy == p;
      assert q in PrefixOf(t, affected, root) && ProxyOf(t, q) == p;
    }
  }

  function Get(required: map<string, set<ProxyId>>, user: string): set<ProxyId> {
    if user in required then required[user] else {}
  }

  /** The visit closure: follows the chain while it is in service. */
  method VisitGrant(t: Tables, affected: set<PathId>, root: PathId) returns (proxies: set<ProxyId>)
    requires Sound(t.paths) && root in t.paths
    ensures proxies == ProxiesOf(t, PrefixOf(t, affected, root))
  {
    assert Ends(t.paths, root);
    ghost var n: nat :| EndsWithin(t.paths, root, n) && PrefixOf(t, affected, root) == Prefix(t, affected, root, n);
    PrefixIsLive(t, affected, root, n);
    ghost var all := Prefix(t, affected, root, n);
    proxies := {};
    var current := Some(root);
    while current.Some? && current.value !in affected && HasProxy(t, current.value) && Live(t, current.value)
      invariant current.Some? ==> EndsWithin(t.paths, current.value, n)
      invariant current.Some? ==> forall q <- Prefix(t, affected, current.value, n) :: HasProxy(t, q)
      invariant ProxiesOf(t, all) == proxies + if current.Some? then ProxiesOf(t, Prefix(t, affected, current.value, n)) else {}
      decreases if current.Some? then n + 1 else 0
    {
      proxies := proxies + {ProxyOf(t, current.value)};
      current := t.paths[current.value].dialer;
      n := n - 1;
    }
  }

  /** What happens to a credential row. */
  function EffectOn(d: Deletion, affectedUsers: set<string>, required: set<ProxyId>, c: CredentialRow): Effect {
    if c.deleted then Unlisted
    else if Some(c.user) == d.user then WillBeUnavailable
    else if c.proxy in d.targets then WillBeArchived
    else if c.enabled && c.user in affectedUsers && c.proxy !in required then WillBeDisabled
    else Unlisted
  }

  predicate LosesGrant(d: Deletion, affected: set<PathId>, g: Grant) {
    !g.deleted && (g.path in affected || Some(g.user) == d.user)
  }

  function AffectedUsers(d: Deletion, affected: set<PathId>, grants: seq<Grant>): set<string> {
    set i | 0 <= i < |grants| && LosesGrant(d, affected, grants[i]) :: grants[i].user
  }

  /** One line for each effect. */
  ghost predicate EffectSays(t: Tables, d: Deletion, affected: set<PathId>, grants: seq<Grant>, c: CredentialRow, e: Effect) {
    && (e == WillBeUnavailable <==> !c.deleted && Some(c.user) == d.user)
    && (e == WillBeArchived <==> !c.deleted && Some(c.user) != d.user && c.proxy in d.targets)
    && (e == WillBeDisabled <==>
          && !c.deleted && Some(c.user) != d.user && c.proxy !in d.targets && c.enabled
          && (exists g <- grants :: g.user == c.user && !g.deleted && g.path in affected)
          && !exists g <- grants :: g.user == c.user && !g.deleted && g.enabled && g.path !in affected
               && StillDials(t, affected, g.path, c.proxy))
  }

  lemma LosersAre(d: Deletion, affected: set<PathId>, grants: seq<Grant>, user: string)
    requires Some(user) != d.user
    ensures user in AffectedUsers(d, affected, grants) <==>
      exists g <- grants :: g.user == user && !g.deleted && g.path in affected
  {
    if user in AffectedUsers(d, affected, grants) {
      var i :| 0 <= i < |grants| && LosesGrant(d, affected, grants[i]) && grants[i].user == user;
      assert grants[i] in grants;
    }
    if g :| g in grants && g.user == user && !g.deleted && g.path in affected {
      var i :| 0 <= i < |grants| && grants[i] == g;
      assert LosesGrant(d, affected, grants[i]);
    }
  }

  lemma RequiredMeans(t: Tables, d: Deletion, affected: set<PathId>, grants: seq<Grant>, user: string, p: ProxyId)
    requires Sound(t.paths) && (forall g <- grants :: g.path in t.paths) && Some(user) != d.user
    ensures p in Required(t, d, affected, grants, |grants|, user) <==>
      exists g <- grants :: g.user == user && !g.deleted && g.enabled && g.path !in affected
        && StillDials(t, affected, g.path, p)
  {
    hide PrefixOf, ProxiesOf, StillDials, Required;
    RequiredByAGrant(t, d, affected, grants, |grants|, user, p);
    forall g <- grants
      ensures p in ProxiesOf(t, PrefixOf(t, affected, g.path)) <==> StillDials(t, affected, g.path, p)
    {
      StillDialsIff(t, affected, g.path, p);
    }
    if p in Required(t, d, affected, grants, |grants|, user) {
      var j :| 0 <= j < |grants| && grants[j].user == user && Remains(t, d, affected, grants[j])
        && p in ProxiesOf(t, PrefixOf(t, affected, grants[j].path));
      assert grants[j] in grants;
    }
    if g :| g in grants && g.user == user && !g.deleted && g.enabled && g.path !in affected && StillDials(t, affected, g.path, p) {
      var j :| 0 <= j < |grants| && grants[j] == g;
      assert Remains(t, d, affected, grants[j]);
    }
  }

  lemma EffectMeans(t: Tables, d: Deletion, affected: set<PathId>, grants: seq<Grant>, c: CredentialRow)
    requires Sound(t.paths) && forall g <- grants :: g.path in t.paths
    ensures EffectSays(t, d, affected, grants, c,
      EffectOn(d, AffectedUsers(d, affected, grants), Required(t, d, affected, grants, |grants|, c.user), c))
  {
    hide StillDials, Required, AffectedUsers;
    if Some(c.user) != d.user {
      LosersAre(d, affected, grants, c.user);
      RequiredMeans(t, d, affected, grants, c.user, c.proxy);
    }
  }

  method PreviewCredentials(t: Tables, d: Deletion, list: seq<PathId>, grants: seq<Grant>, credentials: seq<CredentialRow>)
    returns (affected: set<PathId>, effects: seq<Effect>)
    requires Sound(t.paths) && (forall p :: p in list <==> p in t.paths) && forall g <- grants :: g.path in t.paths
    ensures affected <= t.paths.Keys && forall p <- t.paths :: p in affected <==> Affected(t, d, p)
    ensures |effects| == |credentials|
    ensures forall i :: 0 <= i < |credentials| ==>
      var users := AffectedUsers(d, affected, grants);
      effects[i] == EffectOn(d, users, Required(t, d, affected, grants, |grants|, credentials[i].user), credentials[i])
    ensures forall i :: 0 <= i < |credentials| ==>
      var c := credentials[i];
      && (effects[i] == WillBeUnavailable <==> !c.deleted && Some(c.user) == d.user)
      && (effects[i] == WillBeArchived <==> !c.deleted && Some(c.user) != d.user && c.proxy in d.targets)
      && (effects[i] == WillBeDisabled <==>
            && !c.deleted && Some(c.user) != d.user && c.proxy !in d.targets && c.enabled
            && (exists g <- grants :: g.user == c.user && !g.deleted && g.path in affected)
            && !exists g <- grants :: g.user == c.user && !g.deleted && g.enabled && g.path !in affected
                 && StillDials(t, affected, g.path, c.proxy))
  {
    hide Affected, PrefixOf, ProxiesOf;
    affected := FindAffected(t, d, list);
    var affectedUsers: set<string>, required: map<string, set<ProxyId>> := {}, map[];
    for i := 0 to |grants|
      invariant affectedUsers == set j | 0 <= j < i && LosesGrant(d, affected, grants[j]) :: grants[j].user
      invariant forall user :: Get(required, user) == Required(t, d, affected, grants, i, user)
    {
      var g := grants[i];
      if LosesGrant(d, affected, g) {
        affectedUsers := affectedUsers + {g.user};
      } else if !g.deleted && g.enabled {
        var proxies := VisitGrant(t, affected, g.path);
        required := required[g.user := Get(required, g.user) + proxies];
      }
    }
    effects := [];
    for i := 0 to |credentials|
      invariant |effects| == i
      invariant forall j :: 0 <= j < i ==>
        effects[j] == EffectOn(d, affectedUsers, Get(required, credentials[j].user), credentials[j])
    {
      var c := credentials[i];
      var effect := WillBeDisabled;
      var listed := c.proxy in d.targets || (c.enabled && c.user in affectedUsers && c.proxy !in Get(required, c.user));
      if c.proxy in d.targets {
        effect := WillBeArchived;
      }
      if Some(c.user) == d.user {
        listed, effect := true, WillBeUnavailable;
      }
      effects := effects + [if listed && !c.deleted then effect else Unlisted];
    }
    forall i | 0 <= i < |credentials|
      ensures EffectSays(t, d, affected, grants, credentials[i], effects[i])
    {
      EffectMeans(t, d, affected, grants, credentials[i]);
    }
  }
}
