/**
 The names under which a user's paths are published, and the check that they do not
 clash. Its recursion marks a path only after visiting the path's dialer: that it ends
 rests on the soundness of the dialer graph alone.
 */
module PublishedNames {
  import opened Common
  import opened PathGraph

  /** `proxies` names the proxy of every endpoint whose proxy can still be read. */
  datatype Tables = Tables(paths: Graph, proxies: map<string, string>)

  datatype Verdict = Distinct | Conflicting | Unreadable

  function PublishedName(t: Tables, p: PathId): string
    requires p in t.paths && t.paths[p].endpoint in t.proxies
  {
    var path := t.paths[p];
    if path.displayName != "" then path.displayName else t.proxies[path.endpoint] + " \U{B7} " + path.name
  }

  /** What publishing `p` emits: enabled paths along its chain, up to the first disabled one. */
  function Emitted(g: Graph, p: PathId, n: nat): set<PathId>
    requires EndsWithin(g, p, n)
    decreases n
  {
    if !g[p].enabled then {}
    else {p} + if g[p].dialer.Some? then Emitted(g, g[p].dialer.value, n - 1) else {}
  }

  lemma {:induction false} EmittedIgnoresBound(g: Graph, p: PathId, n: nat, m: nat)
    requires EndsWithin(g, p, n) && EndsWithin(g, p, m)
    ensures Emitted(g, p, n) == Emitted(g, p, m)
    decreases n
  {
    if g[p].dialer.Some? {
      EmittedIgnoresBound(g, g[p].dialer.value, n - 1, m - 1);
    }
  }

  ghost predicate Publishes(g: Graph, root: PathId, q: PathId) {
    exists n: nat :: EndsWithin(g, root, n) && q in Emitted(g, root, n)
  }

  /** `k` hops behind `root` stands `q`, and every path up to it is enabled. */
  predicate EnabledUpTo(g: Graph, root: PathId, k: nat, q: PathId) {
    && Hop(g, root, k) == Some(q)
    && forall i: nat :: i <= k && Hop(g, root, i).Some? ==> Hop(g, root, i).value in g && g[Hop(g, root, i).value].enabled
  }

  lemma OneMoreHop(g: Graph, p: PathId, k: nat, q: PathId)
    requires p in g && g[p].enabled && g[p].dialer.Some?
    ensures EnabledUpTo(g, p, k + 1, q) <==> EnabledUpTo(g, g[p].dialer.value, k, q)
  {
    var d := g[p].dialer.value;
    if EnabledUpTo(g, p, k + 1, q) {
      forall i: nat | i <= k && Hop(g, d, i).Some?
        ensures Hop(g, d, i).value in g && g[Hop(g, d, i).value].enabled
      {
        assert Hop(g, p, i + 1) == Hop(g, d, i);
      }
    }
    if EnabledUpTo(g, d, k, q) {
      forall i: nat | i <= k + 1 && Hop(g, p, i).Some?
        ensures Hop(g, p, i).value in g && g[Hop(g, p, i).value].enabled
      {
        if i > 0 {
          assert Hop(g, p, i) == Hop(g, d, i - 1);
        }
      }
    }
  }

  lemma {:induction false} EmittedIsEnabled(g: Graph, p: PathId, n: nat, q: PathId)
    requires EndsWithin(g, p, n)
    ensures q in Emitted(g, p, n) <==> exists k: nat :: EnabledUpTo(g, p, k, q)
    decreases n
  {
    assert Hop(g, p, 0) == Some(p);
    if g[p].enabled {
      assert EnabledUpTo(g, p, 0, p);
      if g[p].dialer.Some? {
        var d := g[p].dialer.value;
        EmittedIsEnabled(g, d, n - 1, q);
        if k: nat :| EnabledUpTo(g, d, k, q) {
          OneMoreHop(g, p, k, q);
        }
        if k: nat :| EnabledUpTo(g, p, k, q) && k > 0 {
          OneMoreHop(g, p, k - 1, q);
        }
      }
    }
  }

  /** A root publishes what it dials over enabled paths only, itself included. */
  lemma PublishesIff(g: Graph, root: PathId, q: PathId)
    requires Ends(g, root)
    ensures Publishes(g, root, q) <==> exists k: nat :: EnabledUpTo(g, root, k, q)
  {
    var n: nat :| EndsWithin(g, root, n);
    EmittedIsEnabled(g, root, n, q);
    if Publishes(g, root, q) {
      var m: nat :| EndsWithin(g, root, m) && q in Emitted(g, root, m);
      EmittedIgnoresBound(g, root, n, m);
    }
  }

  /** All paths the user's roots emit. */
  ghost predicate EmittedSet(g: Graph, roots: seq<PathId>, all: set<PathId>) {
    forall q :: q in all <==> exists root <- roots :: Publishes(g, root, q)
  }

  /** Two emitted paths clash; an edit is only blamed for clashes of the edited path. */
  predicate Clash(t: Tables, edited: Option<PathId>, p: PathId, q: PathId) {
    && p in t.paths && q in t.paths && t.paths[p].endpoint in t.proxies && t.paths[q].endpoint in t.proxies
    && p != q && PublishedName(t, p) == PublishedName(t, q)
    && (edited.Some? ==> p == edited.value || q == edited.value)
  }

  /** Without a display name of its own, a path goes by its proxy's name and its own. */
  lemma ClashIff(t: Tables, p: PathId, q: PathId)
    requires p in t.paths && q in t.paths && t.paths[p].endpoint in t.proxies && t.paths[q].endpoint in t.proxies
    ensures Clash(t, None, p, q) <==>
      var a, b := t.paths[p], t.paths[q];
      var x, y := t.proxies[a.endpoint] + " \U{B7} " + a.name, t.proxies[b.endpoint] + " \U{B7} " + b.name;
      p != q &&
      if a.displayName != "" && b.displayName != "" then a.displayName == b.displayName
      else if a.displayName != "" then a.displayName == y
      else if b.displayName != "" then x == b.displayName
      else x == y
  {
  }

  predicate Readable(t: Tables, all: set<PathId>) {
    forall p <- all :: p in t.paths && t.paths[p].endpoint in t.proxies
  }

  predicate NoClash(t: Tables, edited: Option<PathId>, all: set<PathId>) {
    forall p <- all, q <- all :: !Clash(t, edited, p, q)
  }

  /** Every path done but the first of its name stands behind that first one. */
  predicate Indexed(t: Tables, names: map<string, PathId>, done: set<PathId>) {
    && Readable(t, done)
    && (forall p <- done :: PublishedName(t, p) in names)
    && (forall n <- names :: names[n] in done && PublishedName(t, names[n]) == n)
  }

  predicate NextEmits(g: Graph, p: PathId, done: set<PathId>)
    requires p in g
  {
    g[p].dialer.Some? && g[p].dialer.value in g && g[g[p].dialer.value].enabled ==> g[p].dialer.value in done
  }

  predicate ClosedSet(g: Graph, done: set<PathId>) {
    forall p <- done :: p in g && g[p].enabled && NextEmits(g, p, done)
  }

  lemma NamesTheFirst(t: Tables, edited: Option<PathId>, names: map<string, PathId>, done: set<PathId>, p: PathId)
    requires Indexed(t, names, done) && NoClash(t, edited, done) && p in t.paths && t.paths[p].endpoint in t.proxies
    requires PublishedName(t, p) !in names || names[PublishedName(t, p)] == p
    ensures Indexed(t, names[PublishedName(t, p) := p], done + {p}) && NoClash(t, edited, done + {p})
  {
    forall q <- done | q != p
      ensures PublishedName(t, q) != PublishedName(t, p) || (p in done && !Clash(t, edited, p, q) && !Clash(t, edited, q, p))
    {
    }
  }

  lemma ShadowedIsHarmless(t: Tables, edited: Option<PathId>, names: map<string, PathId>, done: set<PathId>, p: PathId)
    requires Indexed(t, names, done) && NoClash(t, edited, done) && p in t.paths && t.paths[p].endpoint in t.proxies
    requires PublishedName(t, p) in names && names[PublishedName(t, p)] != p
    requires edited.Some? && names[PublishedName(t, p)] != edited.value && p != edited.value
    ensures Indexed(t, names, done + {p}) && NoClash(t, edited, done + {p})
  {
    var first := names[PublishedName(t, p)];
    forall q <- done
      ensures !Clash(t, edited, p, q) && !Clash(t, edited, q, p)
    {
      assert !Clash(t, edited, first, q);
    }
  }

  lemma ClosedSetGrows(g: Graph, done: set<PathId>, p: PathId)
    requires ClosedSet(g, done) && p in g && g[p].enabled && NextEmits(g, p, done)
    ensures ClosedSet(g, done + {p})
  {
    forall q <- done + {p}
      ensures q in g && g[q].enabled && NextEmits(g, q, done + {p})
    {
    }
  }

  /** What a member of a closed set emits lies in the set. */
  lemma {:induction false} ClosedSetEmits(g: Graph, done: set<PathId>, p: PathId, n: nat)
    requires ClosedSet(g, done) && p in done && EndsWithin(g, p, n)
    ensures Emitted(g, p, n) <= done
    decreases n
  {
    if g[p].dialer.Some? {
      var d := g[p].dialer.value;
      assert NextEmits(g, p, done) && EndsWithin(g, d, n - 1);
      if g[d].enabled {
        ClosedSetEmits(g, done, d, n - 1);
      }
    }
  }

  /** The visit closure with its two maps. The tables hold the edited path in its new form. */
  class Visitor {
    const tables: Tables
    const edited: Option<PathId>
    var emitted: set<PathId>
    var names: map<string, PathId>
    ghost var done: set<PathId>

    ghost predicate Valid()
      reads this
    {
      && emitted <= done && Indexed(tables, names, done)
      && NoClash(tables, edited, done) && ClosedSet(tables.paths, done)
    }

    constructor (tables: Tables, edited: Option<PathId>)
      ensures Valid() && this.tables == tables && this.edited == edited && done == {}
    {
      this.tables, this.edited := tables, edited;
      emitted, names, done := {}, map[], {};
    }

    method Visit(p: PathId, ghost n: nat) returns (r: Verdict)
      requires Valid() && EndsWithin(tables.paths, p, n)
      modifies this
      ensures r == Distinct ==> Valid() && done == old(done) + Emitted(tables.paths, p, n)
      ensures r == Unreadable ==> !Readable(tables, old(done) + Emitted(tables.paths, p, n))
      ensures r == Conflicting ==> !NoClash(tables, edited, old(done) + Emitted(tables.paths, p, n))
      decreases n
    {
      if p in emitted {
        ClosedSetEmits(tables.paths, done, p, n);
        return Distinct;
      }
      var path := tables.paths[p];
      if !path.enabled {
        return Distinct;
      }
      ghost var all := done + Emitted(tables.paths, p, n);
      if path.dialer.Some? {
        ghost var before := done + Emitted(tables.paths, path.dialer.value, n - 1);
        r := Visit(path.dialer.value, n - 1);
        assert before <= all;
        if r != Distinct {
          return;
        }
        DialerIsDone(tables.paths, path.dialer.value, n - 1);
      }
      assert done + {p} == all && NextEmits(tables.paths, p, done);
      if path.endpoint !in tables.proxies {
        return Unreadable;
      }
      r := Enter(p);
    }

    method Enter(p: PathId) returns (r: Verdict)
      requires Valid() && p in tables.paths && tables.paths[p].endpoint in tables.proxies
      requires tables.paths[p].enabled && NextEmits(tables.paths, p, done)
      modifies this
      ensures r == Distinct ==> Valid() && done == old(done) + {p}
      ensures r == Conflicting ==> !NoClash(tables, edited, old(done) + {p})
      ensures r != Unreadable
    {
      hide ClosedSet, NextEmits, NoClash;
      ClosedSetGrows(tables.paths, done, p);
      var name := PublishedName(tables, p);
      if name in names && names[name] != p {
        var previous := names[name];
        if edited.None? || previous == edited.value || p == edited.value {
          ClashInside(tables, edited, done + {p}, previous, p);
          return Conflicting;
        }
        ShadowedIsHarmless(tables, edited, names, done, p);
        done := done + {p};
        return Distinct;
      }
      NamesTheFirst(tables, edited, names, done, p);
      names, emitted := names[name := p], emitted + {p};
      done := done + {p};
      return Distinct;
    }
  }

  lemma ClashInside(t: Tables, edited: Option<PathId>, all: set<PathId>, p: PathId, q: PathId)
    requires p in all && q in all && Clash(t, edited, p, q)
    ensures !NoClash(t, edited, all)
  {
  }

  lemma DialerIsDone(g: Graph, d: PathId, n: nat)
    requires EndsWithin(g, d, n)
    ensures g[d].enabled ==> d in Emitted(g, d, n)
  {
  }

  // ----- The check -----

  ghost function EmittedBy(g: Graph, roots: seq<PathId>): set<PathId>
    requires Sound(g) && forall root <- roots :: root in g
  {
    if roots == [] then {}
    else
      assert Ends(g, roots[|roots| - 1]);
      var n: nat :| EndsWithin(g, roots[|roots| - 1], n);
      EmittedBy(g, roots[..|roots| - 1]) + Emitted(g, roots[|roots| - 1], n)
  }

  lemma {:induction false} EmittedByIsEmittedSet(g: Graph, roots: seq<PathId>)
    requires Sound(g) && forall root <- roots :: root in g
    ensures EmittedSet(g, roots, EmittedBy(g, roots))
  {
    if roots != [] {
      var init, last := roots[..|roots| - 1], roots[|roots| - 1];
      EmittedByIsEmittedSet(g, init);
      assert Ends(g, last);
      var n: nat :| EndsWithin(g, last, n) && EmittedBy(g, roots) == EmittedBy(g, init) + Emitted(g, last, n);
      forall q
        ensures q in Emitted(g, last, n) <==> Publishes(g, last, q)
      {
        if Publishes(g, last, q) {
          var m: nat :| EndsWithin(g, last, m) && q in Emitted(g, last, m);
          EmittedIgnoresBound(g, last, n, m);
        }
      }
      forall q
        ensures q in EmittedBy(g, roots) <==> exists root <- roots :: Publishes(g, root, q)
      {
        if root :| root in roots && Publishes(g, root, q) {
          assert root == last || root in init;
        }
        assert last in roots && forall root <- init :: root in roots;
      }
    }
  }

  /** Accepts exactly when every emitted path can be read and no two of them clash. */
  method ValidatePublishedNames(tables: Tables, roots: seq<PathId>, edited: Option<PathId>) returns (r: Verdict)
    requires Sound(tables.paths) && forall root <- roots :: root in tables.paths
    ensures var all := EmittedBy(tables.paths, roots);
      r == Distinct <==> Readable(tables, all) && NoClash(tables, edited, all)
  {
    ghost var all := EmittedBy(tables.paths, roots);
    var visitor := new Visitor(tables, edited);
    var i := 0;
    while i < |roots|
      invariant 0 <= i <= |roots| && visitor.Valid() && visitor.tables == tables && visitor.edited == edited
      invariant fresh(visitor)
      invariant visitor.done == EmittedBy(tables.paths, roots[..i])
    {
      assert roots[..i + 1][..i] == roots[..i];
      assert Ends(tables.paths, roots[i]);
      ghost var n: nat :| EndsWithin(tables.paths, roots[i], n)
        && EmittedBy(tables.paths, roots[..i + 1]) == EmittedBy(tables.paths, roots[..i]) + Emitted(tables.paths, roots[i], n);
      EmittedByGrows(tables.paths, roots, i + 1);
      r := visitor.Visit(roots[i], n);
      if r != Distinct {
        LargerSetsClashMore(tables, edited, EmittedBy(tables.paths, roots[..i + 1]), all);
        return;
      }
      i := i + 1;
    }
    assert roots[..|roots|] == roots;
    return Distinct;
  }

  lemma {:induction false} EmittedByGrows(g: Graph, roots: seq<PathId>, i: nat)
    requires Sound(g) && (forall root <- roots :: root in g) && i <= |roots|
    ensures EmittedBy(g, roots[..i]) <= EmittedBy(g, roots)
    decreases |roots|
  {
    if i == |roots| {
      assert roots[..i] == roots;
    } else {
      EmittedByGrows(g, roots[..|roots| - 1], i);
      assert roots[..|roots| - 1][..i] == roots[..i];
    }
  }

  lemma LargerSetsClashMore(t: Tables, edited: Option<PathId>, part: set<PathId>, all: set<PathId>)
    requires part <= all
    ensures Readable(t, all) ==> Readable(t, part)
    ensures NoClash(t, edited, all) ==> NoClash(t, edited, part)
  {
  }

  /** Acceptance without an edit means all names a user gets are distinct; with an edit,
      that the edited path's name is no other path's. */
  lemma AcceptedNamesAreDistinct(t: Tables, edited: Option<PathId>, all: set<PathId>, p: PathId, q: PathId)
    requires Readable(t, all) && NoClash(t, edited, all) && p in all && q in all && p != q
    requires edited.None? || p == edited.value
    ensures PublishedName(t, p) != PublishedName(t, q)
  {
    assert !Clash(t, edited, p, q);
  }
}
