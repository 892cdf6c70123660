/** The paths on a dialer chain, and the closure of a set of paths under dialing. */
module PathChains {
  import opened Common
  import opened PathGraph

  function Chain(g: Graph, p: PathId, n: nat): set<PathId>
    requires EndsWithin(g, p, n)
    decreases n
  {
    {p} + if g[p].dialer.Some? then Chain(g, g[p].dialer.value, n - 1) else {}
  }

  lemma {:induction false} ChainIgnoresBound(g: Graph, p: PathId, n: nat, m: nat)
    requires EndsWithin(g, p, n) && EndsWithin(g, p, m)
    ensures Chain(g, p, n) == Chain(g, p, m)
    decreases n
  {
    if g[p].dialer.Some? {
      ChainIgnoresBound(g, g[p].dialer.value, n - 1, m - 1);
    }
  }

  lemma {:induction false} ChainInside(g: Graph, p: PathId, n: nat)
    requires EndsWithin(g, p, n)
    ensures Chain(g, p, n) <= g.Keys
    decreases n
  {
    if g[p].dialer.Some? {
      ChainInside(g, g[p].dialer.value, n - 1);
    }
  }

  ghost function ChainOf(g: Graph, p: PathId): (c: set<PathId>)
    requires Ends(g, p)
    ensures p in c && c <= g.Keys
  {
    var n: nat :| EndsWithin(g, p, n);
    ChainInside(g, p, n);
    Chain(g, p, n)
  }

  lemma ChainOfUnfold(g: Graph, p: PathId)
    requires Ends(g, p)
    ensures p in g && (g[p].dialer.Some? ==> Ends(g, g[p].dialer.value))
    ensures ChainOf(g, p) == {p} + if g[p].dialer.Some? then ChainOf(g, g[p].dialer.value) else {}
  {
    var n: nat :| EndsWithin(g, p, n) && ChainOf(g, p) == Chain(g, p, n);
    if g[p].dialer.Some? {
      var d := g[p].dialer.value;
      assert EndsWithin(g, d, n - 1);
      var m: nat :| EndsWithin(g, d, m) && ChainOf(g, d) == Chain(g, d, m);
      ChainIgnoresBound(g, d, n - 1, m);
      assert Chain(g, p, n) == {p} + Chain(g, d, n - 1);
    }
  }

  /** The chain is what can be reached over dialer hops. */
  lemma {:induction false} ChainIsReached(g: Graph, p: PathId, n: nat, q: PathId)
    requires EndsWithin(g, p, n)
    ensures q in Chain(g, p, n) <==> Reached(g, p, q)
    decreases n
  {
    assert Hop(g, p, 0) == Some(p);
    if g[p].dialer.Some? {
      var d := g[p].dialer.value;
      ChainIsReached(g, d, n - 1, q);
      if Reached(g, d, q) {
        var k: nat :| Hop(g, d, k) == Some(q);
        assert Hop(g, p, k + 1) == Some(q);
      }
      if Reached(g, p, q) && q != p {
        var k: nat :| Hop(g, p, k) == Some(q);
        assert Hop(g, d, k - 1) == Some(q);
      }
    } else {
      assert forall k: nat :: k > 0 ==> Hop(g, p, k).None?;
    }
  }

  /** Everything the given paths dial through, themselves included. */
  ghost function Closure(g: Graph, roots: set<PathId>): (c: set<PathId>)
    requires Sound(g) && roots <= g.Keys
    ensures c <= g.Keys
  {
    set root, q | root in roots && q in ChainOf(g, root) :: q
  }

  lemma ClosureAdd(g: Graph, roots: set<PathId>, p: PathId)
    requires Sound(g) && roots <= g.Keys && p in g
    ensures Closure(g, roots + {p}) == Closure(g, roots) + ChainOf(g, p)
  {
  }

  lemma ClosureOfOne(g: Graph, p: PathId)
    requires Sound(g) && p in g
    ensures Ends(g, p) && Closure(g, {p}) == ChainOf(g, p)
  {
  }
}
