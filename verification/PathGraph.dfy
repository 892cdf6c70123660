/**
 The dialer graph: every path may dial through one other path. Validation of a new
 or changed path keeps the graph free of cycles and dangling edges.
 */
module PathGraph {
  import opened Common

  type PathId = string

  datatype Path = Path(
    name: string,
    displayName: string,
    endpoint: string,
    dialer: Option<PathId>,
    enabled: bool,
    selectable: bool)

  type Graph = map<PathId, Path>

  const MAX_DIALER_DEPTH := 3

  // ----- Chains -----

  /** The path `n` dialer hops behind `p`. */
  function Hop(g: Graph, p: PathId, n: nat): Option<PathId>
    decreases n
  {
    if n == 0 then Some(p)
    else if p in g && g[p].dialer.Some? then Hop(g, g[p].dialer.value, n - 1)
    else None
  }

  /** The chain that starts at `p` is complete and has at most `n` paths. */
  predicate EndsWithin(g: Graph, p: PathId, n: nat)
    decreases n
  {
    && n > 0 && p in g
    && (g[p].dialer.Some? ==> EndsWithin(g, g[p].dialer.value, n - 1))
  }

  ghost predicate Ends(g: Graph, p: PathId) {
    exists n: nat :: EndsWithin(g, p, n)
  }

  ghost predicate Sound(g: Graph) {
    forall p <- g :: Ends(g, p)
  }

  ghost predicate Dangling(g: Graph) {
    exists p <- g :: g[p].dialer.Some? && g[p].dialer.value !in g
  }

  ghost predicate Cyclic(g: Graph) {
    exists p: PathId, n: nat :: p in g && n > 0 && Hop(g, p, n) == Some(p)
  }

  /** `q` is behind `p`, over at least one hop. */
  ghost predicate Follows(g: Graph, p: PathId, q: PathId) {
    exists n: nat :: n > 0 && Hop(g, p, n) == Some(q)
  }

  lemma {:induction false} EndsWithinMore(g: Graph, p: PathId, n: nat, m: nat)
    requires EndsWithin(g, p, n) && n <= m
    ensures EndsWithin(g, p, m)
    decreases n
  {
    if g[p].dialer.Some? {
      EndsWithinMore(g, g[p].dialer.value, n - 1, m - 1);
    }
  }

  lemma {:induction false} HopCompose(g: Graph, p: PathId, n: nat, m: nat)
    requires Hop(g, p, n).Some?
    ensures Hop(g, p, n + m) == Hop(g, Hop(g, p, n).value, m)
    decreases n
  {
    if n > 0 {
      HopCompose(g, g[p].dialer.value, n - 1, m);
    }
  }

  lemma {:induction false} EndedChainHasNoHop(g: Graph, p: PathId, n: nat, m: nat)
    requires EndsWithin(g, p, n) && n <= m
    ensures Hop(g, p, m).None?
    decreases n
  {
    if g[p].dialer.Some? {
      EndedChainHasNoHop(g, g[p].dialer.value, n - 1, m - 1);
    }
  }

  /** Going round a cycle `k` times. */
  lemma {:induction false} CycleRepeats(g: Graph, p: PathId, n: nat, k: nat)
    requires Hop(g, p, n) == Some(p)
    ensures Hop(g, p, n * k) == Some(p)
    decreases k
  {
    if k == 0 {
      assert n * k == 0;
    } else {
      CycleRepeats(g, p, n, k - 1);
      assert n * k == n * (k - 1) + n;
      HopCompose(g, p, n * (k - 1), n);
    }
  }

  lemma ReturningChainNeverEnds(g: Graph, p: PathId, n: nat, m: nat)
    requires n > 0 && Hop(g, p, n) == Some(p)
    ensures !EndsWithin(g, p, m)
  {
    if EndsWithin(g, p, m) {
      CycleRepeats(g, p, n, m);
      assert n * m >= m by { assert n * m == m + (n - 1) * m; }
      EndedChainHasNoHop(g, p, m, n * m);
    }
  }

  /** Walking on from `p`, with all of `behind` already passed, stops after the rest. */
  lemma {:induction false} WalkEnds(g: Graph, p: PathId, behind: set<PathId>)
    requires !Dangling(g) && !Cyclic(g) && p in g && p !in behind && behind <= g.Keys
    requires forall b <- behind :: Follows(g, b, p)
    ensures Ends(g, p)
    decreases g.Keys - behind
  {
    if g[p].dialer.Some? {
      var d := g[p].dialer.value;
      assert d in g;
      var passed := behind + {p};
      assert Hop(g, p, 1) == Some(d) by { assert Hop(g, d, 0) == Some(d); }
      forall b <- passed
        ensures Follows(g, b, d)
      {
        if b != p {
          var n: nat :| n > 0 && Hop(g, b, n) == Some(p);
          HopCompose(g, b, n, 1);
          assert Hop(g, b, n + 1) == Some(d);
        } else {
          assert Hop(g, b, 1) == Some(d);
        }
      }
      assert d !in passed by {
        assert !Follows(g, d, d);
      }
      WalkEnds(g, d, passed);
      var n: nat :| EndsWithin(g, d, n);
      assert EndsWithin(g, p, n + 1);
    } else {
      assert EndsWithin(g, p, 1);
    }
  }

  /** Every chain ends exactly when no edge dangles and no chain returns to its start. */
  lemma SoundIffAcyclic(g: Graph)
    ensures Sound(g) <==> !Dangling(g) && !Cyclic(g)
  {
    if Sound(g) {
      forall p | p in g && g[p].dialer.Some?
        ensures g[p].dialer.value in g
      {
        var n: nat :| EndsWithin(g, p, n);
        assert EndsWithin(g, g[p].dialer.value, n - 1);
      }
      forall p: PathId, n: nat | p in g && n > 0
        ensures Hop(g, p, n) != Some(p)
      {
        if Hop(g, p, n) == Some(p) {
          var m: nat :| EndsWithin(g, p, m);
          ReturningChainNeverEnds(g, p, n, m);
          assert false;
        }
      }
    } else if !Dangling(g) && !Cyclic(g) {
      var p :| p in g && !Ends(g, p);
      WalkEnds(g, p, {});
    }
  }

  // ----- Validation -----

  datatype Verdict = Accepted | PathMissing | DialerMissing | Cycle | TooDeep | NameConflict | NameUnreadable

  /** The depth-first search of the code; a path has one dialer, so it is a walk. */
  class Validation {
    const paths: Graph
    var visiting: set<PathId>
    var visited: set<PathId>

    constructor (paths: Graph)
      ensures this.paths == paths && visiting == {} && visited == {}
    {
      this.paths := paths;
      visiting, visited := {}, {};
    }

    method Visit(id: PathId, depth: nat) returns (r: Verdict)
      requires 1 <= depth <= MAX_DIALER_DEPTH + 1 && visited == {}
      requires forall v <- visiting :: v in paths && Follows(paths, v, id)
      modifies this
      ensures r == Accepted <==> EndsWithin(paths, id, MAX_DIALER_DEPTH + 1 - depth)
      ensures r == Cycle ==> Cyclic(paths)
      ensures r == DialerMissing ==> exists n: nat :: Hop(paths, id, n).Some? && Hop(paths, id, n).value !in paths
      ensures r == TooDeep ==> Hop(paths, id, MAX_DIALER_DEPTH + 1 - depth).Some?
      decreases MAX_DIALER_DEPTH + 1 - depth
    {
      if id in visiting {
        ghost var n: nat :| n > 0 && Hop(paths, id, n) == Some(id);
        ReturningChainNeverEnds(paths, id, n, MAX_DIALER_DEPTH + 1 - depth);
        return Cycle;
      }
      if depth > MAX_DIALER_DEPTH {
        return TooDeep;
      }
      if id in visited {
        return Accepted;
      }
      if id !in paths {
        assert Hop(paths, id, 0) == Some(id);
        return DialerMissing;
      }
      visiting := visiting + {id};
      if paths[id].dialer.Some? {
        var dialer := paths[id].dialer.value;
        assert Hop(paths, dialer, 0) == Some(dialer) && Hop(paths, id, 1) == Some(dialer);
        forall v <- visiting
          ensures Follows(paths, v, dialer)
        {
          if v != id {
            var n: nat :| n > 0 && Hop(paths, v, n) == Some(id);
            HopCompose(paths, v, n, 1);
            assert Hop(paths, v, n + 1) == Some(dialer);
          } else {
            assert Hop(paths, v, 1) == Some(dialer);
          }
        }
        r := Visit(dialer, depth + 1);
        if r == DialerMissing {
          ghost var n: nat :| Hop(paths, dialer, n).Some? && Hop(paths, dialer, n).value !in paths;
          assert Hop(paths, id, n + 1) == Hop(paths, dialer, n);
        }
        if r != Accepted {
          return;
        }
      }
      visiting := visiting - {id};
      visited := visited + {id};
      return Accepted;
    }
  }

  method ValidatePathGraph(paths: Graph, id: PathId, candidate: Path) returns (r: Verdict)
    ensures var after := paths[id := candidate];
      && (r == Accepted <==> EndsWithin(after, id, 3))
      && (r == Cycle ==> Cyclic(after))
      && (r == DialerMissing ==> exists n: nat :: Hop(after, id, n).Some? && Hop(after, id, n).value !in after)
      && (r == TooDeep ==> Hop(after, id, MAX_DIALER_DEPTH).Some?)
  {
    var after := paths[id := candidate];
    if candidate.dialer.Some? && candidate.dialer.value !in after {
      assert Hop(after, candidate.dialer.value, 0) == candidate.dialer && Hop(after, id, 1) == candidate.dialer;
      return DialerMissing;
    }
    var validation := new Validation(after);
    r := validation.Visit(id, 1);
  }

  // ----- The stored graph -----

  datatype Change =
    | Create(id: PathId, path: Path)
    | Update(id: PathId, path: Path)
    | SetEnabled(id: PathId, enabled: bool)
    | Delete(id: PathId)

  /** A new id is random; references to a path restrict its deletion. */
  predicate Admitted(g: Graph, c: Change) {
    match c
    case Create(id, path) => id !in g && EndsWithin(g[id := path], id, MAX_DIALER_DEPTH)
    case Update(id, path) => id in g && EndsWithin(g[id := path], id, MAX_DIALER_DEPTH)
    case SetEnabled(id, _) => id in g
    case Delete(id) => id in g && forall p <- g :: g[p].dialer != Some(id)
  }

  function Apply(g: Graph, c: Change): Graph {
    if !Admitted(g, c) then g
    else match c
      case Create(id, path) => g[id := path]
      case Update(id, path) => g[id := path]
      case SetEnabled(id, enabled) => g[id := g[id].(enabled := enabled)]
      case Delete(id) => g - {id}
  }

  /** Other chains keep their paths up to the edited one, and then end as it does. */
  lemma {:induction false} EditedChainEnds(g: Graph, id: PathId, path: Path, p: PathId, n: nat, m: nat)
    requires EndsWithin(g[id := path], id, m) && EndsWithin(g, p, n)
    ensures EndsWithin(g[id := path], p, n + m)
    decreases n
  {
    if p == id {
      EndsWithinMore(g[id := path], id, m, n + m);
    } else if g[p].dialer.Some? {
      EditedChainEnds(g, id, path, g[p].dialer.value, n - 1, m);
    }
  }

  lemma EditKeepsSound(g: Graph, id: PathId, path: Path, m: nat)
    requires Sound(g) && EndsWithin(g[id := path], id, m)
    ensures Sound(g[id := path])
  {
    var after := g[id := path];
    forall p <- after
      ensures Ends(after, p)
    {
      if p != id {
        var n: nat :| EndsWithin(g, p, n);
        EditedChainEnds(g, id, path, p, n, m);
      }
    }
  }

  lemma {:induction false} SameDialersSameChain(g: Graph, h: Graph, p: PathId, n: nat)
    requires EndsWithin(g, p, n)
    requires forall q :: q in g && Reached(g, p, q) ==> q in h && h[q].dialer == g[q].dialer
    ensures EndsWithin(h, p, n)
    decreases n
  {
    assert Hop(g, p, 0) == Some(p);
    assert Reached(g, p, p);
    if g[p].dialer.Some? {
      var d := g[p].dialer.value;
      forall q | q in g && Reached(g, d, q)
        ensures Reached(g, p, q)
      {
        var k: nat :| Hop(g, d, k) == Some(q);
        assert Hop(g, p, k + 1) == Some(q);
      }
      SameDialersSameChain(g, h, d, n - 1);
    }
  }

  ghost predicate Reached(g: Graph, p: PathId, q: PathId) {
    exists k: nat :: Hop(g, p, k) == Some(q)
  }

  lemma {:induction false} OnlyDialersAreReached(g: Graph, p: PathId, q: PathId, k: nat)
    requires p != q && Hop(g, p, k) == Some(q)
    ensures exists r <- g :: g[r].dialer == Some(q)
    decreases k
  {
    if g[p].dialer == Some(q) {
    } else {
      OnlyDialersAreReached(g, g[p].dialer.value, q, k - 1);
    }
  }

  lemma ApplyKeepsSound(g: Graph, c: Change)
    requires Sound(g)
    ensures Sound(Apply(g, c))
  {
    if Admitted(g, c) {
      var after := Apply(g, c);
      match c {
        case Create(id, path) => EditKeepsSound(g, id, path, MAX_DIALER_DEPTH);
        case Update(id, path) => EditKeepsSound(g, id, path, MAX_DIALER_DEPTH);
        case SetEnabled(id, _) =>
          forall p <- after
            ensures Ends(after, p)
          {
            var n: nat :| EndsWithin(g, p, n);
            SameDialersSameChain(g, after, p, n);
          }
        case Delete(id) =>
          forall p <- after
            ensures Ends(after, p)
          {
            var n: nat :| EndsWithin(g, p, n);
            forall q | q in g && Reached(g, p, q)
              ensures q in after && after[q].dialer == g[q].dialer
            {
              var k: nat :| Hop(g, p, k) == Some(q);
              if q == id {
                OnlyDialersAreReached(g, p, q, k);
              }
            }
            SameDialersSameChain(g, after, p, n);
          }
      }
    }
  }

  function ApplyAll(changes: seq<Change>): Graph {
    if changes == [] then map[]
    else Apply(ApplyAll(changes[..|changes| - 1]), changes[|changes| - 1])
  }

  /** Whatever changes are asked for, the stored graph has no cycle and no dangling
      edge, and the chain of a path just created or changed has at most three paths. */
  lemma {:induction false} GraphStaysSound(changes: seq<Change>)
    ensures Sound(ApplyAll(changes)) && !Cyclic(ApplyAll(changes)) && !Dangling(ApplyAll(changes))
    ensures changes != [] && (changes[|changes| - 1].Create? || changes[|changes| - 1].Update?)
      && Admitted(ApplyAll(changes[..|changes| - 1]), changes[|changes| - 1])
      ==> EndsWithin(ApplyAll(changes), changes[|changes| - 1].id, MAX_DIALER_DEPTH)
  {
    if changes != [] {
      GraphStaysSound(changes[..|changes| - 1]);
      ApplyKeepsSound(ApplyAll(changes[..|changes| - 1]), changes[|changes| - 1]);
    }
    SoundIffAcyclic(ApplyAll(changes));
  }

  // ----- The depth of the others -----

  ghost predicate Shallow(g: Graph) {
    forall p <- g :: EndsWithin(g, p, MAX_DIALER_DEPTH)
  }

  /** The walk from `p` passes `q` after `k` hops. */
  lemma {:induction false} ChainSplits(g: Graph, p: PathId, k: nat, q: PathId, n: nat)
    requires Hop(g, p, k) == Some(q) && q in g
    ensures EndsWithin(g, p, n) <==> k <= n && EndsWithin(g, q, n - k)
    decreases k
  {
    if k > 0 {
      if n > 0 {
        ChainSplits(g, g[p].dialer.value, k - 1, q, n - 1);
      }
    }
  }

  lemma {:induction false} UntouchedChain(g: Graph, id: PathId, path: Path, p: PathId, n: nat)
    requires EndsWithin(g, p, n) && !Reached(g[id := path], p, id)
    ensures EndsWithin(g[id := path], p, n)
    decreases n
  {
    var after := g[id := path];
    assert p != id by { assert Hop(after, p, 0) == Some(p); }
    if g[p].dialer.Some? {
      var d := g[p].dialer.value;
      assert !Reached(after, d, id) by {
        forall k: nat
          ensures Hop(after, d, k) != Some(id)
        {
          assert Hop(after, p, k + 1) == Hop(after, d, k);
        }
      }
      UntouchedChain(g, id, path, d, n - 1);
    }
  }

  ghost predicate LeavesRoom(g: Graph, id: PathId) {
    forall p, k: nat :: p in g && Hop(g, p, k) == Some(id) ==>
      k < MAX_DIALER_DEPTH && EndsWithin(g, id, MAX_DIALER_DEPTH - k)
  }

  /** Validation looks at the edited path's own chain only. All chains stay within the
      limit exactly when every path that dials through the edited one, over `k` hops,
      leaves it a chain of at most the limit less `k`. */
  lemma StaysShallowIff(g: Graph, id: PathId, path: Path)
    requires Shallow(g) && EndsWithin(g[id := path], id, MAX_DIALER_DEPTH)
    ensures var after := g[id := path];
      Shallow(after) <==> LeavesRoom(after, id)
  {
    var after := g[id := path];
    forall p, k: nat | p in after && Hop(after, p, k) == Some(id)
      ensures EndsWithin(after, p, MAX_DIALER_DEPTH) <==>
        k < MAX_DIALER_DEPTH && EndsWithin(after, id, MAX_DIALER_DEPTH - k)
    {
      ChainSplits(after, p, k, id, MAX_DIALER_DEPTH);
    }
    forall p | p in after && !Reached(after, p, id)
      ensures EndsWithin(after, p, MAX_DIALER_DEPTH)
    {
      assert p != id by { assert Hop(after, p, 0) == Some(p); }
      UntouchedChain(g, id, path, p, MAX_DIALER_DEPTH);
    }
    if LeavesRoom(after, id) {
      forall p <- after
        ensures EndsWithin(after, p, MAX_DIALER_DEPTH)
      {
        if Reached(after, p, id) {
          var k: nat :| Hop(after, p, k) == Some(id);
        }
      }
    }
  }

  /** Not every accepted change keeps the others within the limit. */
  lemma AncestorsCanExceedTheLimit() returns (changes: seq<Change>)
    ensures forall n :: 0 <= n < |changes| ==> Admitted(ApplyAll(changes[..n]), changes[n])
    ensures !Shallow(ApplyAll(changes))
  {
    var last := Path("last", "", "e", None, true, true);
    var a := Path("a", "", "e", None, true, true);
    var b := Path("b", "", "e", Some("a"), true, true);
    var c := Path("c", "", "e", Some("b"), true, true);
    changes := [Create("last", last), Create("a", a), Create("b", b), Create("c", c),
                Update("a", a.(dialer := Some("last")))];
    var g0: Graph := map[];
    var g1 := g0["last" := last];
    var g2 := g1["a" := a];
    var g3 := g2["b" := b];
    var g4 := g3["c" := c];
    assert changes[..0] == [] && changes[..1] == changes[..0] + [changes[0]] && changes[..2] == changes[..1] + [changes[1]];
    assert changes[..3] == changes[..2] + [changes[2]] && changes[..4] == changes[..3] + [changes[3]];
    assert changes[..5] == changes[..4] + [changes[4]] == changes;
    assert ApplyAll(changes[..1]) == g1;
    assert ApplyAll(changes[..2]) == g2;
    assert EndsWithin(g3, "a", 2) && EndsWithin(g3, "b", 3);
    assert ApplyAll(changes[..3]) == g3;
    assert EndsWithin(g4, "a", 1) && EndsWithin(g4, "b", 2) && EndsWithin(g4, "c", 3);
    assert ApplyAll(changes[..4]) == g4;
    var g5 := g4["a" := a.(dialer := Some("last"))];
    assert EndsWithin(g5, "last", 2) && EndsWithin(g5, "a", 3);
    assert ApplyAll(changes[..5]) == g5;
    assert !EndsWithin(g5, "last", 0) && !EndsWithin(g5, "a", 1) && !EndsWithin(g5, "b", 2) && !EndsWithin(g5, "c", 3);
  }
}
