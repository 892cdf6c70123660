/** The two transactions that change grants: a user's selection, and a path group. */
module PathChanges {
  import opened Common
  import opened PathGraph
  import opened PathChains
  import opened PathAccess
  import opened PathGrants

  const MAX_GROUP_MEMBERS := 200
  const MAX_GROUP_USERS := 500
  const MAX_GROUP_ACCESSES := 5000

  datatype Selection = Selection(path: PathId, enabled: bool)

  datatype GroupChange =
    | Save(group: string, enabled: bool, members: seq<PathId>)
    | Archive(group: string)
    | Grant(group: string, user: string)
    | Revoke(group: string, user: string)

  /** The direct grants once `changes` are applied to what the user effectively had. */
  function Selected(had: set<PathId>, changes: seq<Selection>): set<PathId> {
    if changes == [] then had
    else
      var rest, last := Selected(had, changes[..|changes| - 1]), changes[|changes| - 1];
      if last.enabled then rest + {last.path} else rest - {last.path}
  }

  /** With distinct paths the order of the changes is irrelevant: a changed path is as
      asked for, every other path as before. */
  lemma {:induction false} SelectedIsAsAsked(had: set<PathId>, changes: seq<Selection>, p: PathId)
    requires forall i, j :: 0 <= i < j < |changes| ==> changes[i].path != changes[j].path
    ensures p in Selected(had, changes) <==>
      Selection(p, true) in changes || (p in had && Selection(p, false) !in changes)
  {
    if changes != [] {
      var init, last := changes[..|changes| - 1], changes[|changes| - 1];
      SelectedIsAsAsked(had, init, p);
      assert forall c :: c in changes <==> c in init || c == last;
    }
  }

  /** What a selection leaves: every named path as asked for, every other one exactly if
      it was granted before, directly or through a group. */
  lemma SelectionMeans(groups: map<string, Group>, r: Rows, changes: seq<Selection>, after: Rows)
    requires Active(after.accesses) == Selected(Desired(groups, r), changes)
    requires forall i, j :: 0 <= i < j < |changes| ==> changes[i].path != changes[j].path
    ensures forall p: PathId ::
      (p in after.accesses && after.accesses[p]) <==>
      if Selection(p, true) in changes then true
      else if Selection(p, false) in changes then false
      else p in r.direct || exists g <- r.groups :: g in groups && groups[g].enabled && p in groups[g].members
  {
    forall p: PathId
      ensures (p in after.accesses && after.accesses[p]) <==>
        if Selection(p, true) in changes then true
        else if Selection(p, false) in changes then false
        else p in r.direct || exists g <- r.groups :: g in groups && groups[g].enabled && p in groups[g].members
    {
      SelectedIsAsAsked(Desired(groups, r), changes, p);
      assert (p in after.accesses && after.accesses[p]) <==> p in Active(after.accesses);
      hide Selected;
    }
  }

  function Members(s: seq<PathId>): set<PathId> {
    set p | p in s
  }

  lemma DesiredIgnores(groups: map<string, Group>, changed: map<string, Group>, r: Rows, group: string)
    requires group !in r.groups && groups - {group} == changed - {group}
    ensures Desired(groups, r) == Desired(changed, r)
  {
    forall g <- r.groups
      ensures g in groups <==> g in changed
      ensures g in groups ==> groups[g] == changed[g]
    {
      assert g in groups <==> g in groups - {group};
      assert g in changed <==> g in changed - {group};
    }
  }

  /** What a change writes before any user is reconciled. */
  predicate Asked(change: GroupChange, groups: map<string, Group>, users: map<string, Rows>,
                  newGroups: map<string, Group>, newUsers: map<string, Rows>)
  {
    match change
    case Save(group, enabled, members) =>
      newGroups == groups[group := Group(enabled, Members(members))] && newUsers == users
    case Archive(group) =>
      group in groups && newGroups == groups - {group} && newUsers == users
    case Grant(group, user) =>
      newGroups == groups && user in users
      && newUsers == users[user := users[user].(groups := users[user].groups + {group})]
    case Revoke(group, user) =>
      newGroups == groups && user in users
      && newUsers == users[user := users[user].(groups := users[user].groups - {group})]
  }

  // ----- What users end up with -----

  /** The access of `p` is active. */
  predicate Has(r: Rows, p: PathId) {
    p in r.accesses && r.accesses[p]
  }

  /** Granted directly, or through an enabled group other than `group`. */
  predicate HasElsewhere(groups: map<string, Group>, r: Rows, p: PathId, group: string) {
    p in r.direct || exists g <- r.groups :: g != group && g in groups && groups[g].enabled && p in groups[g].members
  }

  /** Whom a change is about: the users of the group, or the one it names. */
  predicate Concerns(change: GroupChange, u: string, r: Rows) {
    match change
    case Save(group, _, _) => group in r.groups
    case Archive(group) => group in r.groups
    case Grant(_, user) => u == user
    case Revoke(_, user) => u == user
  }

  /** What the change lets the user have through the group. */
  predicate HasThrough(change: GroupChange, groups: map<string, Group>, p: PathId) {
    match change
    case Save(_, enabled, members) => enabled && p in members
    case Archive(_) => false
    case Grant(group, _) => group in groups && groups[group].enabled && p in groups[group].members
    case Revoke(_, _) => false
  }

  lemma OtherGroupsStay(change: GroupChange, groups: map<string, Group>, users: map<string, Rows>,
                        newGroups: map<string, Group>, newUsers: map<string, Rows>, u: string)
    requires Asked(change, groups, users, newGroups, newUsers) && u in users && u in newUsers
    requires Concerns(change, u, users[u])
    ensures newGroups - {change.group} == groups - {change.group} && newUsers[u].direct == users[u].direct
    ensures newUsers[u].groups - {change.group} == users[u].groups - {change.group}
    ensures forall p: PathId ::
      (change.group in newUsers[u].groups && change.group in newGroups && newGroups[change.group].enabled
       && p in newGroups[change.group].members) <==> HasThrough(change, groups, p)
  {
  }

  lemma NewGroupsAre(change: GroupChange, groups: map<string, Group>, users: map<string, Rows>,
                     newGroups: map<string, Group>, newUsers: map<string, Rows>)
    requires Asked(change, groups, users, newGroups, newUsers)
    ensures match change
      case Save(group, enabled, members) => newGroups == groups[group := Group(enabled, set p | p in members)]
      case Archive(group) => group in groups && newGroups == groups - {group}
      case Grant(_, user) => newGroups == groups && user in users
      case Revoke(_, user) => newGroups == groups && user in users
  {
  }

  lemma GroupGrants(groups: map<string, Group>, was: Rows, newGroups: map<string, Group>, r: Rows, group: string, p: PathId)
    requires newGroups - {group} == groups - {group}
    requires r.direct == was.direct && r.groups - {group} == was.groups - {group}
    ensures p in Desired(newGroups, r) <==>
      || (group in r.groups && group in newGroups && newGroups[group].enabled && p in newGroups[group].members)
      || HasElsewhere(groups, was, p, group)
  {
    forall g: string | g != group
      ensures g in r.groups <==> g in was.groups
      ensures g in groups <==> g in newGroups
      ensures g in groups ==> groups[g] == newGroups[g]
    {
      assert g in r.groups - {group} <==> g in was.groups - {group};
      assert g in newGroups - {group} <==> g in groups - {group};
      assert g in groups ==> (groups - {group})[g] == (newGroups - {group})[g];
    }
  }

  lemma ConcernedUsers(change: GroupChange, groups: map<string, Group>, users: map<string, Rows>,
                       newGroups: map<string, Group>, newUsers: map<string, Rows>, u: string, after: Rows)
    requires Asked(change, groups, users, newGroups, newUsers) && u in users && u in newUsers
    requires Concerns(change, u, users[u]) && Active(after.accesses) == Desired(newGroups, newUsers[u])
    ensures forall p: PathId ::
      Has(after, p) <==> HasThrough(change, groups, p) || HasElsewhere(groups, users[u], p, change.group)
  {
    OtherGroupsStay(change, groups, users, newGroups, newUsers, u);
    hide Desired, Asked, Concerns, HasElsewhere;
    forall p: PathId
      ensures Has(after, p) <==> HasThrough(change, groups, p) || HasElsewhere(groups, users[u], p, change.group)
    {
      GroupGrants(groups, users[u], newGroups, newUsers[u], change.group, p);
      assert Has(after, p) <==> p in Active(after.accesses);
    }
  }

  class Store {
    const tables: Tables
    var groups: map<string, Group>
    var users: map<string, Rows>

    ghost predicate Valid()
      reads this
    {
      WellFormed(tables) && forall u <- users :: RowsFit(tables, groups, users[u])
    }

    constructor (tables: Tables)
      requires WellFormed(tables)
      ensures Valid() && this.tables == tables && users == map[] && groups == map[]
    {
      this.tables := tables;
      groups, users := map[], map[];
    }

    /** What a reconciled user has: the desired accesses, the credentials they need, and
        distinct published names. */
    ghost predicate Settled(groups: map<string, Group>, before: Rows, after: Rows)
      requires WellFormed(tables)
    {
      && RowsFit(tables, groups, before)
      && Active(before.accesses) <= tables.paths.Keys && Desired(groups, before) <= tables.paths.Keys
      && Reconciled(tables, Desired(groups, before), before, after)
      && NamesDistinct(tables, LiveAmong(tables, Desired(groups, before)))
    }

    // ----- Selections -----

    predicate Selectable(changes: seq<Selection>)
    {
      && 1 <= |changes| <= MAX_GROUP_MEMBERS
      && (forall i, j :: 0 <= i < j < |changes| ==> changes[i].path != changes[j].path)
      && forall c <- changes ::
           && c.path in tables.paths && tables.paths[c.path].selectable
           && (c.enabled ==> tables.paths[c.path].enabled)
    }

    method CheckSelection(changes: seq<Selection>) returns (ok: bool)
      ensures ok <==> Selectable(changes)
    {
      if |changes| == 0 || |changes| > MAX_GROUP_MEMBERS {
        return false;
      }
      var seen: set<PathId> := {};
      for i := 0 to |changes|
        invariant seen == set j | 0 <= j < i :: changes[j].path
        invariant forall j, k :: 0 <= j < k < i ==> changes[j].path != changes[k].path
        invariant forall j :: 0 <= j < i ==>
          && changes[j].path in tables.paths && tables.paths[changes[j].path].selectable
          && (changes[j].enabled ==> tables.paths[changes[j].path].enabled)
      {
        var c := changes[i];
        if c.path in seen {
          return false;
        }
        seen := seen + {c.path};
        if c.path !in tables.paths || !tables.paths[c.path].selectable || (c.enabled && !tables.paths[c.path].enabled) {
          return false;
        }
      }
      return true;
    }

    /** Checkbox changes of one user. Group grants are flattened into direct ones first. */
    method ChangeUserPathSelection(user: string, changes: seq<Selection>) returns (ok: bool)
      requires Valid()
      modifies this`users
      ensures Valid() && (!ok ==> users == old(users))
      ensures ok ==>
        && user in old(users) && user in users && users == old(users)[user := users[user]] && Selectable(changes)
        && 1 <= |changes| <= 200
        && (forall c <- changes :: c.path in tables.paths && (c.enabled ==> tables.paths[c.path].enabled))
        && var selected := Selected(Desired(groups, old(users)[user]), changes);
        var before := old(users)[user].(direct := selected, groups := {});
        && Desired(groups, before) == selected && Active(users[user].accesses) == selected
        && Settled(groups, before, users[user])
      ensures ok ==> users[user].groups == {} && forall p: PathId ::
        (p in users[user].accesses && users[user].accesses[p]) <==>
        if Selection(p, true) in changes then true
        else if Selection(p, false) in changes then false
        else
          || p in old(users)[user].direct
          || exists g <- old(users)[user].groups :: g in groups && groups[g].enabled && p in groups[g].members
    {
      if user !in users {
        return false;
      }
      var fine := CheckSelection(changes);
      if !fine {
        return false;
      }
      var rows := users[user];
      ghost var had := Desired(groups, rows);
      rows := rows.(direct := Desired(groups, rows), groups := {});
      for i := 0 to |changes|
        invariant rows == users[user].(direct := Selected(had, changes[..i]), groups := {})
        invariant rows.direct <= tables.paths.Keys
      {
        assert changes[..i + 1][..i] == changes[..i];
        if changes[i].enabled {
          rows := rows.(direct := rows.direct + {changes[i].path});
        } else {
          rows := rows.(direct := rows.direct - {changes[i].path});
        }
      }
      assert changes[..|changes|] == changes;
      assert Desired(groups, rows) == rows.direct;
      var r := ReconcilePathGrants(tables, groups, rows);
      if r.None? {
        return false;
      }
      SelectionMeans(groups, users[user], changes, r.value);
      users := users[user := r.value];
      return true;
    }

    // ----- Groups -----

    function Granted(group: string): set<string>
      reads this
    {
      set u | u in users && group in users[u].groups
    }

    /** Checks of a save that do not depend on the users. */
    predicate SavableMembers(members: seq<PathId>) {
      && |members| <= MAX_GROUP_MEMBERS
      && (forall i, j :: 0 <= i < j < |members| ==> members[i] != members[j])
      && forall p <- members ::
           p in tables.paths && tables.paths[p].selectable
           && tables.paths[p].endpoint in tables.endpoints && tables.endpoints[tables.paths[p].endpoint].resolvable
    }

    /** Whom a change affects, and the rows before reconciling. */
    method Prepare(change: GroupChange)
      returns (ok: bool, newGroups: map<string, Group>, newUsers: map<string, Rows>, affected: set<string>)
      requires Valid()
      ensures ok ==>
        && newUsers.Keys == users.Keys && affected <= users.Keys && |affected| <= MAX_GROUP_USERS
        && (forall u <- users :: RowsFit(tables, newGroups, newUsers[u]))
        && (forall u <- users :: newUsers[u].accesses == users[u].accesses && newUsers[u].credentials == users[u].credentials)
        && (forall u <- users :: u !in affected ==>
              newUsers[u] == users[u] && Desired(newGroups, newUsers[u]) == Desired(groups, users[u]))
      ensures ok ==> Asked(change, groups, users, newGroups, newUsers)
      ensures ok ==> forall u <- users :: u in affected <==> Concerns(change, u, users[u])
      ensures ok && !change.Save? ==> change.group in groups
    {
      hide Desired, WellFormed;
      newGroups, newUsers, affected := groups, users, Granted(change.group);
      if |affected| > MAX_GROUP_USERS {
        return false, groups, users, {};
      }
      match change {
        case Save(group, enabled, members) =>
          if !SavableMembers(members) || |members| * |affected| > MAX_GROUP_ACCESSES {
            return false, groups, users, {};
          }
          newGroups := groups[group := Group(enabled, Members(members))];
        case Archive(group) =>
          if group !in groups {
            return false, groups, users, {};
          }
          newGroups := groups - {group};
        case Grant(group, user) =>
          if user !in users || group !in groups || |affected + {user}| > MAX_GROUP_USERS
              || |affected + {user}| * |groups[group].members| > MAX_GROUP_ACCESSES {
            return false, groups, users, {};
          }
          newUsers := users[user := users[user].(groups := users[user].groups + {group})];
          affected := {user};
        case Revoke(group, user) =>
          if user !in users || group !in groups {
            return false, groups, users, {};
          }
          newUsers := users[user := users[user].(groups := users[user].groups - {group})];
          affected := {user};
      }
      ok := true;
      forall u <- users | change.group !in users[u].groups
        ensures Desired(newGroups, users[u]) == Desired(groups, users[u])
      {
        DesiredIgnores(groups, newGroups, users[u], change.group);
      }
    }

    method ReconcileOne(newGroups: map<string, Group>, rows: Rows) returns (r: Option<Rows>)
      requires WellFormed(tables) && RowsFit(tables, newGroups, rows)
      ensures r.Some? ==> Settled(newGroups, rows, r.value) && RowsFit(tables, newGroups, r.value)
    {
      r := ReconcilePathGrants(tables, newGroups, rows);
    }

    lemma SettledIsDesired(groups: map<string, Group>, before: Rows, after: Rows)
      requires WellFormed(tables) && Settled(groups, before, after)
      ensures Active(after.accesses) == Desired(groups, before)
    {
    }

    method ReconcileUsers(newGroups: map<string, Group>, newUsers: map<string, Rows>, affected: set<string>)
      returns (r: Option<map<string, Rows>>)
      requires WellFormed(tables) && affected <= newUsers.Keys
      requires forall u <- newUsers :: RowsFit(tables, newGroups, newUsers[u])
      ensures r.Some? ==>
        && r.value.Keys == newUsers.Keys && (forall u <- r.value :: RowsFit(tables, newGroups, r.value[u]))
        && forall u <- r.value :: if u in affected then Settled(newGroups, newUsers[u], r.value[u]) else r.value[u] == newUsers[u]
    {
      hide RowsFit, Settled, WellFormed;
      var left, done := affected, newUsers;
      while left != {}
        invariant left <= affected && done.Keys == newUsers.Keys
        invariant forall u <- done :: RowsFit(tables, newGroups, done[u])
        invariant forall u <- done ::
          if u in affected && u !in left then Settled(newGroups, newUsers[u], done[u]) else done[u] == newUsers[u]
      {
        var u :| u in left;
        var one := ReconcileOne(newGroups, done[u]);
        if one.None? {
          return None;
        }
        done, left := done[u := one.value], left - {u};
      }
      return Some(done);
    }

    /** Every affected user is reconciled, or nothing changes at all. */
    method ChangePathGroup(change: GroupChange) returns (ok: bool, ghost before: map<string, Rows>, affected: set<string>)
      requires Valid()
      modifies this`groups, this`users
      ensures Valid() && (!ok ==> users == old(users) && groups == old(groups))
      ensures ok ==>
        && before.Keys == users.Keys == old(users).Keys && affected <= users.Keys
        && Asked(change, old(groups), old(users), groups, before)
        && (forall u <- affected :: Settled(groups, before[u], users[u]))
        && (forall u <- users :: u !in affected ==>
              users[u] == old(users)[u] && Desired(groups, users[u]) == Desired(old(groups), old(users)[u]))
      ensures ok ==>
        match change
        case Save(group, enabled, members) =>
          && groups == old(groups)[group := Group(enabled, set p | p in members)]
          && forall u <- users ::
               if group in old(users)[u].groups then
                 forall p: PathId :: Has(users[u], p) <==>
                   (enabled && p in members) || HasElsewhere(old(groups), old(users)[u], p, group)
               else users[u] == old(users)[u]
        case Archive(group) =>
          && group in old(groups) && groups == old(groups) - {group}
          && forall u <- users ::
               if group in old(users)[u].groups then
                 forall p: PathId :: Has(users[u], p) <==> HasElsewhere(old(groups), old(users)[u], p, group)
               else users[u] == old(users)[u]
        case Grant(group, user) =>
          && group in groups && groups == old(groups) && user in users
          && (forall p: PathId :: Has(users[user], p) <==>
                (groups[group].enabled && p in groups[group].members) || HasElsewhere(groups, old(users)[user], p, group))
          && forall u <- users | u != user :: users[u] == old(users)[u]
        case Revoke(group, user) =>
          && group in groups && groups == old(groups) && user in users
          && (forall p: PathId :: Has(users[user], p) <==> HasElsewhere(groups, old(users)[user], p, group))
          && forall u <- users | u != user :: users[u] == old(users)[u]
    {
      hide RowsFit, Settled, WellFormed, Desired, Asked, Has, HasElsewhere;
      var fine, newGroups, newUsers, whom := Prepare(change);
      ok, before, affected := false, newUsers, whom;
      if !fine {
        return;
      }
      var done := ReconcileUsers(newGroups, newUsers, affected);
      if done.Some? {
        forall u <- users | Concerns(change, u, users[u])
          ensures forall p: PathId ::
            Has(done.value[u], p) <==> HasThrough(change, groups, p) || HasElsewhere(groups, users[u], p, change.group)
        {
          SettledIsDesired(newGroups, newUsers[u], done.value[u]);
          ConcernedUsers(change, groups, users, newGroups, newUsers, u, done.value[u]);
        }
        NewGroupsAre(change, groups, users, newGroups, newUsers);
        groups, users := newGroups, done.value;
        ok := true;
      }
    }
  }

  // ----- A grant that gives no usable credentials -----

  const PARKED := Tables(
    map["p" := Path("p", "", "e", None, false, true)],
    map["e" := PathAccess.Endpoint("x", true, true)],
    map["x" := Proxy("x", "n", false)])

  lemma ParkedIsWellFormed()
    ensures WellFormed(PARKED) && Hops(PARKED, {"p"}) == {"x"} && Hops(PARKED, {}) == {}
  {
    assert EndsWithin(PARKED.paths, "p", 1);
    assert forall p <- PARKED.paths :: Ends(PARKED.paths, p);
    HopsUnfold(PARKED, "p");
    assert Closure(PARKED.paths, {}) == {};
  }

  /** A group may contain a disabled path: granting it issues the credential of its hop
      and disables it again in the same transaction. */
  lemma DisabledPathGetsNoCredential() returns (before: Rows, after: Rows)
    ensures WellFormed(PARKED) && before.accesses == map[] && before.credentials == map[]
    ensures Reconciled(PARKED, {"p"}, before, after)
    ensures Active(after.accesses) == {"p"} && Hops(PARKED, {"p"}) == {"x"} && after.credentials == map["x" := Disabled]
  {
    ParkedIsWellFormed();
    before := Rows({"p"}, {}, map[], map[], map[]);
    after := before.(accesses := map["p" := true], credentials := map["x" := Disabled], bindings := map["n" := true]);
    assert Active(before.accesses) == {} && {"p"} - {} == {"p"};
    assert LiveAmong(PARKED, {"p"}) == {};
    assert Blocked(PARKED, before) == {};
  }
}
