/**
 The table of paths: creating, changing and deleting a path, with all checks. What a user
 gets is published from the roots that are live: an edit can make an access live, or end
 that, but the check before it goes by the roots that are live before.
 */
module PathStore {
  import opened Common
  import opened PathGraph
  import opened PathAccess
  import Names = PublishedNames

  predicate InService(t: Tables, p: PathId) {
    HasProxy(t, p) && Live(t, p)
  }

  /** Of a user's active accesses, those whose path, endpoint, proxy and node are in service. */
  function LiveRoots(t: Tables, accesses: seq<PathId>): (roots: seq<PathId>)
    ensures forall p :: p in roots <==> p in accesses && InService(t, p)
  {
    if accesses == [] then []
    else (if InService(t, accesses[0]) then [accesses[0]] else []) + LiveRoots(t, accesses[1..])
  }

  /** The tables once path `id` is changed. */
  function Edited(t: Tables, id: PathId, path: Path): Tables {
    t.(paths := t.paths[id := path])
  }

  /** What is published for a user with these accesses. */
  ghost function Published(t: Tables, accesses: seq<PathId>): set<PathId>
    requires Sound(t.paths)
  {
    Names.EmittedBy(t.paths, LiveRoots(t, accesses))
  }

  ghost predicate NamesDistinct(t: Tables, accesses: seq<PathId>)
    requires Sound(t.paths)
  {
    Names.NoClash(NameTables(t), None, Published(t, accesses))
  }

  /** The check of an edit, for one user: everything that the edited graph emits from the
      roots live before the edit can be read, and none of it clashes with the edited path. */
  ghost predicate NamesFit(t: Tables, accesses: seq<PathId>, id: PathId, path: Path)
    requires Sound(t.paths[id := path]) && id in t.paths
  {
    var names := NameTables(Edited(t, id, path));
    var all := Names.EmittedBy(names.paths, LiveRoots(t, accesses));
    Names.Readable(names, all) && Names.NoClash(names, Some(id), all)
  }

  /** `changes` is what was asked of the table so far. */
  class Store {
    var paths: Graph
    ghost var changes: seq<Change>

    ghost predicate Valid()
      reads this
    {
      paths == ApplyAll(changes)
    }

    constructor ()
      ensures Valid() && paths == map[]
    {
      paths, changes := map[], [];
    }

    ghost method Asked(c: Change)
      requires paths == Apply(ApplyAll(changes), c)
      modifies this`changes
      ensures Valid() && changes == old(changes) + [c]
    {
      assert (changes + [c])[..|changes|] == changes;
      changes := changes + [c];
    }

    method CreatePath(id: PathId, path: Path) returns (r: Verdict)
      requires Valid() && id !in paths
      modifies this
      ensures Valid() && changes == old(changes) + [Create(id, path)]
      ensures paths == if r == Accepted then old(paths)[id := path] else old(paths)
    {
      r := ValidatePathGraph(paths, id, path);
      if r == Accepted {
        paths := paths[id := path];
      }
      Asked(Create(id, path));
    }

    /** The names as they would be after the edit are checked for every user with active
        accesses, `users` holding those of each. */
    method UpdatePath(id: PathId, path: Path, users: seq<seq<PathId>>,
                      endpoints: map<string, Endpoint>, proxies: map<ProxyId, Proxy>)
      returns (r: Verdict)
      requires Valid()
      modifies this
      ensures Valid() && old(changes) <= changes
      ensures paths == if r == Accepted then old(paths)[id := path] else old(paths)
      ensures id !in old(paths) ==> r == PathMissing
      ensures r == Accepted <==>
        && id in old(paths) && EndsWithin(old(paths)[id := path], id, MAX_DIALER_DEPTH)
        && Sound(old(paths)[id := path])
        && forall accesses <- users :: NamesFit(Tables(old(paths), endpoints, proxies), accesses, id, path)
    {
      if id !in paths {
        return PathMissing;
      }
      r := ValidatePathGraph(paths, id, path);
      if r != Accepted {
        return;
      }
      GraphStaysSound(changes);
      EditKeepsSound(paths, id, path, MAX_DIALER_DEPTH);
      r := CheckNames(Tables(paths, endpoints, proxies), users, id, path);
      if r != Accepted {
        return;
      }
      paths := paths[id := path];
      Asked(Update(id, path));
    }

    method DeletePath(id: PathId) returns (ok: bool)
      requires Valid()
      modifies this
      ensures Valid() && changes == old(changes) + [Delete(id)]
      ensures paths == if ok then old(paths) - {id} else old(paths)
      ensures ok <==> id in old(paths) && forall p <- old(paths) :: old(paths)[p].dialer != Some(id)
    {
      ok := id in paths && forall p <- paths :: paths[p].dialer != Some(id);
      if ok {
        paths := paths - {id};
      }
      Asked(Delete(id));
    }
  }

  /** Every user in turn, up to the first whose names do not fit. */
  method CheckNames(t: Tables, users: seq<seq<PathId>>, id: PathId, path: Path) returns (r: Verdict)
    requires Sound(t.paths[id := path]) && id in t.paths
    ensures r in {Accepted, NameConflict, NameUnreadable}
    ensures r == Accepted <==> forall accesses <- users :: NamesFit(t, accesses, id, path)
  {
    for i := 0 to |users|
      invariant forall j :: 0 <= j < i ==> NamesFit(t, users[j], id, path)
    {
      var verdict := Names.ValidatePublishedNames(NameTables(Edited(t, id, path)), LiveRoots(t, users[i]), Some(id));
      if verdict != Names.Distinct {
        assert !NamesFit(t, users[i], id, path);
        return if verdict == Names.Conflicting then NameConflict else NameUnreadable;
      }
    }
    return Accepted;
  }

  // ----- What an accepted edit keeps -----

  /** The edit makes the user's own access to the edited path live. */
  predicate MakesLive(t: Tables, accesses: seq<PathId>, id: PathId, path: Path) {
    id in accesses && !InService(t, id) && InService(Edited(t, id, path), id)
  }

  /** What the edit publishes unchecked: other paths that were not published before, and the
      edited path when its own access becomes live. */
  ghost function Unchecked(t: Tables, accesses: seq<PathId>, id: PathId, path: Path): set<PathId>
    requires Sound(t.paths) && Sound(t.paths[id := path])
  {
    Published(Edited(t, id, path), accesses) - Published(t, accesses) - {id}
      + if MakesLive(t, accesses, id, path) then {id} else {}
  }

  lemma {:induction false} FewerRootsEmitLess(g: Graph, roots: seq<PathId>, more: seq<PathId>)
    requires Sound(g) && (forall p <- more :: p in g) && forall p <- roots :: p in more
    ensures Names.EmittedBy(g, roots) <= Names.EmittedBy(g, more)
  {
    Names.EmittedByIsEmittedSet(g, roots);
    Names.EmittedByIsEmittedSet(g, more);
    hide Names.Publishes;
  }

  lemma OnlyTheEditedBecomesLive(t: Tables, id: PathId, path: Path, p: PathId)
    requires p != id && id in t.paths
    ensures InService(Edited(t, id, path), p) <==> InService(t, p)
  {
  }

  /** Unless the edit makes its own access live, all that is published was checked. */
  lemma PublishedWasChecked(t: Tables, accesses: seq<PathId>, id: PathId, path: Path)
    requires Sound(t.paths) && Sound(t.paths[id := path]) && id in t.paths && !MakesLive(t, accesses, id, path)
    ensures Published(Edited(t, id, path), accesses) <= Names.EmittedBy(t.paths[id := path], LiveRoots(t, accesses))
  {
    forall p <- LiveRoots(Edited(t, id, path), accesses)
      ensures p in LiveRoots(t, accesses)
    {
      if p != id {
        OnlyTheEditedBecomesLive(t, id, path, p);
      }
    }
    FewerRootsEmitLess(t.paths[id := path], LiveRoots(Edited(t, id, path), accesses), LiveRoots(t, accesses));
  }

  lemma UncheckedIsPublished(t: Tables, accesses: seq<PathId>, id: PathId, path: Path)
    requires Sound(t.paths) && Sound(t.paths[id := path])
    ensures Unchecked(t, accesses, id, path) <= Published(Edited(t, id, path), accesses)
  {
    if MakesLive(t, accesses, id, path) {
      var g, roots := t.paths[id := path], LiveRoots(Edited(t, id, path), accesses);
      assert Ends(g, id);
      var n: nat :| EndsWithin(g, id, n);
      assert id in Names.Emitted(g, id, n) && Names.Publishes(g, id, id) && id in roots;
      Names.EmittedByIsEmittedSet(g, roots);
    }
  }

  lemma OthersKeepTheirNames(t: Tables, id: PathId, path: Path, p: PathId, q: PathId)
    requires id in t.paths && p != id && q != id
    ensures Names.Clash(NameTables(Edited(t, id, path)), None, p, q) <==> Names.Clash(NameTables(t), None, p, q)
  {
  }

  /** If a user's published names were distinct before an accepted edit, they are distinct
      after it exactly when nothing the edit publishes unchecked shares its name with another
      published path. */
  lemma AcceptedEditKeepsNamesIff(t: Tables, accesses: seq<PathId>, id: PathId, path: Path)
    requires Sound(t.paths) && Sound(t.paths[id := path]) && id in t.paths
    requires NamesDistinct(t, accesses) && NamesFit(t, accesses, id, path)
    ensures NamesDistinct(Edited(t, id, path), accesses) <==>
      var after := Edited(t, id, path);
      forall p <- Unchecked(t, accesses, id, path), q <- Published(after, accesses) ::
        !Names.Clash(NameTables(after), None, p, q)
  {
    var after := Edited(t, id, path);
    var all, known := Published(after, accesses), Published(t, accesses);
    var names, unchecked := NameTables(after), Unchecked(t, accesses, id, path);
    UncheckedIsPublished(t, accesses, id, path);
    if forall p <- unchecked, q <- all :: !Names.Clash(names, None, p, q) {
      if !MakesLive(t, accesses, id, path) {
        PublishedWasChecked(t, accesses, id, path);
      }
      forall p <- all, q <- all
        ensures !Names.Clash(names, None, p, q)
      {
        if p in unchecked || q in unchecked {
          assert !Names.Clash(names, None, p, q) || !Names.Clash(names, None, q, p);
        } else if p == id || q == id {
          assert !Names.Clash(names, Some(id), p, q);
        } else {
          OthersKeepTheirNames(t, id, path, p, q);
          assert !Names.Clash(NameTables(t), None, p, q);
        }
      }
    }
  }

  // ----- What an accepted edit may break -----

  const A := Path("a", "", "e", None, true, true)
  const B := Path("b", "same", "e", None, true, true)
  const C := Path("c", "same", "e", None, true, true)
  const DIALS_C := A.(dialer := Some("c"))
  const OFF := C.(enabled := false)
  const ENDPOINTS := map["e" := PathAccess.Endpoint("x", true, true)]
  const PROXIES := map["x" := Proxy("proxy", "n", false)]

  /** a and b are granted, c is not; a is changed to dial through c. */
  const DIALING := Tables(map["a" := A, "b" := B, "c" := C], ENDPOINTS, PROXIES)

  /** b and c are granted, c is disabled, and is enabled. */
  const DISABLED := Tables(map["b" := B, "c" := OFF], ENDPOINTS, PROXIES)

  lemma EmittedByTwo(g: Graph, p: PathId, n: nat, q: PathId, m: nat)
    requires Sound(g) && EndsWithin(g, p, n) && EndsWithin(g, q, m)
    ensures Names.EmittedBy(g, [p, q]) == Names.Emitted(g, p, n) + Names.Emitted(g, q, m)
  {
    EmittedByOne(g, p, n);
    assert [p, q][..1] == [p];
    var i: nat :| EndsWithin(g, q, i) && Names.EmittedBy(g, [p, q]) == Names.EmittedBy(g, [p, q][..1]) + Names.Emitted(g, q, i);
    Names.EmittedIgnoresBound(g, q, i, m);
  }

  lemma EmittedByOne(g: Graph, p: PathId, n: nat)
    requires Sound(g) && EndsWithin(g, p, n)
    ensures Names.EmittedBy(g, [p]) == Names.Emitted(g, p, n)
  {
    assert [p][..0] == [];
    var j: nat :| EndsWithin(g, p, j) && Names.EmittedBy(g, [p]) == Names.EmittedBy(g, [p][..0]) + Names.Emitted(g, p, j);
    Names.EmittedIgnoresBound(g, p, j, n);
  }

  lemma LiveOfTwo(t: Tables, p: PathId, q: PathId)
    requires InService(t, p)
    ensures LiveRoots(t, [p, q]) == if InService(t, q) then [p, q] else [p]
  {
    assert [p, q][1..] == [q] && [q][1..] == [];
    assert LiveRoots(t, [q]) == if InService(t, q) then [q] else [];
  }

  lemma DialingPublishes()
    ensures Sound(DIALING.paths) && EndsWithin(DIALING.paths["a" := DIALS_C], "a", MAX_DIALER_DEPTH)
    ensures Sound(DIALING.paths["a" := DIALS_C])
    ensures Names.EmittedBy(DIALING.paths, ["a", "b"]) == {"a", "b"}
    ensures Names.EmittedBy(DIALING.paths["a" := DIALS_C], ["a", "b"]) == {"a", "b", "c"}
  {
    var g, h := DIALING.paths, DIALING.paths["a" := DIALS_C];
    assert EndsWithin(g, "a", 1) && EndsWithin(g, "b", 1) && EndsWithin(g, "c", 1);
    assert EndsWithin(h, "a", 2) && EndsWithin(h, "b", 1) && EndsWithin(h, "c", 1);
    EmittedByTwo(g, "a", 1, "b", 1);
    EmittedByTwo(h, "a", 2, "b", 1);
    assert Names.Emitted(g, "a", 1) == {"a"} && Names.Emitted(g, "b", 1) == Names.Emitted(h, "b", 1) == {"b"};
    assert Names.Emitted(h, "c", 1) == {"c"} && Names.Emitted(h, "a", 2) == {"a", "c"};
  }

  /** An accepted edit can publish two other paths of one name: the check only blames clashes
      of the edited path itself. */
  lemma AcceptedEditCanPublishAClash()
    ensures Sound(DIALING.paths) && EndsWithin(DIALING.paths["a" := DIALS_C], "a", MAX_DIALER_DEPTH)
    ensures Sound(DIALING.paths["a" := DIALS_C])
    ensures NamesDistinct(DIALING, ["a", "b"]) && NamesFit(DIALING, ["a", "b"], "a", DIALS_C)
    ensures !NamesDistinct(Edited(DIALING, "a", DIALS_C), ["a", "b"])
  {
    DialingPublishes();
    hide Sound, EndsWithin, Names.EmittedBy;
    LiveOfTwo(DIALING, "a", "b");
    LiveOfTwo(Edited(DIALING, "a", DIALS_C), "a", "b");
    assert Names.PublishedName(NameTables(DIALING), "a") == "proxy \U{B7} a";
    assert Names.Clash(NameTables(Edited(DIALING, "a", DIALS_C)), None, "b", "c");
  }

  /** Nor is the edited path always checked: enabling a path the user already has an access
      to publishes it, while the check goes by the roots live before and never visits it. */
  lemma EnablingCanPublishAClash()
    ensures Sound(DISABLED.paths) && EndsWithin(DISABLED.paths["c" := C], "c", MAX_DIALER_DEPTH)
    ensures Sound(DISABLED.paths["c" := C]) && MakesLive(DISABLED, ["b", "c"], "c", C)
    ensures NamesDistinct(DISABLED, ["b", "c"]) && NamesFit(DISABLED, ["b", "c"], "c", C)
    ensures !NamesDistinct(Edited(DISABLED, "c", C), ["b", "c"])
  {
    var g, h := DISABLED.paths, DISABLED.paths["c" := C];
    assert EndsWithin(g, "b", 1) && EndsWithin(g, "c", 1) && EndsWithin(h, "b", 1) && EndsWithin(h, "c", 1);
    LiveOfTwo(DISABLED, "b", "c");
    LiveOfTwo(Edited(DISABLED, "c", C), "b", "c");
    EmittedByOne(g, "b", 1);
    EmittedByOne(h, "b", 1);
    EmittedByTwo(h, "b", 1, "c", 1);
    assert Names.Emitted(g, "b", 1) == Names.Emitted(h, "b", 1) == {"b"} && Names.Emitted(h, "c", 1) == {"c"};
    assert Names.Clash(NameTables(Edited(DISABLED, "c", C)), None, "b", "c");
  }
}
