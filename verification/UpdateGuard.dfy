/**
 The self-update guard of the node agent.

 Three durable objects take part: the guard record, the symbolic link the service
 manager starts, and the service definition files with their backup. Every rule
 below is one atomic write of one of them, with the condition the code has
 checked just before it. A crash may fall between any two writes, so the states of
 a legal run are exactly the durable states a restarted agent can find.
 */
module UpdateGuardRules {
  import opened Common

  /** A release directory; agent versions and release directories correspond. */
  type Release = string

  datatype ServiceFile = Missing | Present(data: string, mode: nat)

  datatype GuardStatus = Pending | Confirmed | RolledBack

  datatype Guard = Guard(
    operation: string,
    previous: Release,
    candidate: Release,
    status: GuardStatus,
    attempts: nat)

  const MAX_GUARD_STARTS := 3

  /** The durable state, plus three history variables: `originals` are the service
      files at the moment the guard record was armed, `starts` counts how often the
      guard has let the unconfirmed candidate start since then, and `confirmed` is the
      release that was confirmed last. */
  datatype State = State(
    guard: Option<Guard>,
    link: Release,
    live: seq<ServiceFile>,
    backup: Option<seq<ServiceFile>>,
    originals: seq<ServiceFile>,
    starts: nat,
    confirmed: Release)
  {
    predicate Pending() {
      guard.Some? && guard.value.status == GuardStatus.Pending
    }
  }

  // ----- The atomic writes -----

  /** The update operation writes a pending guard record. Its way back is whatever the
      link points to, be that confirmed or not. */
  ghost predicate Arm(s: State, t: State) {
    t.guard.Some? && var g := t.guard.value;
    && g.status == GuardStatus.Pending && g.attempts == 0
    && g.previous == s.link
    && t == s.(guard := t.guard, originals := s.live, starts := 0)
  }

  ghost predicate SwitchForward(s: State, t: State) {
    s.Pending() && t == s.(link := s.guard.value.candidate)
  }

  /** The guard charges one start to the candidate and lets it run. */
  ghost predicate Authorize(s: State, t: State) {
    && s.Pending() && s.link != s.guard.value.previous
    && s.guard.value.attempts + 1 < MAX_GUARD_STARTS
    && t == s.(guard := Some(s.guard.value.(attempts := s.guard.value.attempts + 1)), starts := s.starts + 1)
  }

  ghost predicate SwitchBack(s: State, t: State) {
    s.Pending() && t == s.(link := s.guard.value.previous)
  }

  ghost predicate SaveBackup(s: State, t: State) {
    s.Pending() && s.backup.None? && t == s.(backup := Some(s.live))
  }

  /** One service file is written. While the guard is pending this needs a backup,
      and once the link is back on the previous release only the backup is written. */
  ghost predicate WriteFile(s: State, t: State, i: nat, file: ServiceFile) {
    && i < |s.live|
    && (s.Pending() ==>
      && s.backup.Some?
      && (s.link == s.guard.value.previous ==> i < |s.backup.value| && file == s.backup.value[i]))
    && t == s.(live := s.live[i := file])
  }

  ghost predicate DropBackup(s: State, t: State) {
    && s.backup.Some?
    && (s.Pending() ==> s.live == s.backup.value && s.link == s.guard.value.previous)
    && t == s.(backup := None)
  }

  ghost predicate MarkRolledBack(s: State, t: State) {
    && s.Pending() && s.link == s.guard.value.previous && s.backup.None?
    && t.guard.Some? && t.guard.value.status == GuardStatus.RolledBack
    && t.guard.value == s.guard.value.(status := GuardStatus.RolledBack, attempts := t.guard.value.attempts)
    && t == s.(guard := t.guard)
  }

  ghost predicate MarkConfirmed(s: State, t: State) {
    && s.Pending() && s.link == s.guard.value.candidate != s.guard.value.previous
    && t == s.(guard := Some(s.guard.value.(status := GuardStatus.Confirmed)), confirmed := s.link)
  }

  ghost predicate RemoveGuard(s: State, t: State) {
    && s.guard.Some? && !s.Pending() && s.backup.None?
    && t == s.(guard := None)
  }

  ghost predicate Step(s: State, t: State) {
    || Arm(s, t) || SwitchForward(s, t) || Authorize(s, t) || SwitchBack(s, t)
    || SaveBackup(s, t) || (exists i: nat, file :: WriteFile(s, t, i, file)) || DropBackup(s, t)
    || MarkRolledBack(s, t) || MarkConfirmed(s, t) || RemoveGuard(s, t)
  }

  /** A freshly confirmed agent: no guard record and no backup. */
  ghost predicate Initial(s: State) {
    s.guard.None? && s.backup.None? && s.confirmed == s.link
  }

  ghost predicate Legal(run: seq<State>) {
    && run != [] && Initial(run[0])
    && forall i :: 0 < i < |run| ==> Step(run[i - 1], run[i])
  }

  lemma ExtendLegal(run: seq<State>, next: State)
    requires Legal(run) && Step(run[|run| - 1], next)
    ensures Legal(run + [next])
  {
    var longer := run + [next];
    forall i | 0 < i < |longer|
      ensures Step(longer[i - 1], longer[i])
    {
      if i < |run| {
        assert longer[i - 1] == run[i - 1] && longer[i] == run[i];
      }
    }
  }

  // ----- The promise -----

  /** While an update is pending the way back leads to the release confirmed last, the
      original service files are recoverable, the link is one of the two releases, and at
      most two starts were granted. */
  ghost predicate Recoverable(s: State) {
    s.Pending() ==>
      && s.guard.value.previous == s.confirmed
      && s.originals == (if s.backup.Some? then s.backup.value else s.live)
      && s.link in {s.guard.value.previous, s.guard.value.candidate}
      && s.starts <= 2
  }

  /** An update is armed cleanly when no older service backup differs from the files it
      would have to restore, and no update is pending that has already switched the link. */
  ghost predicate CleanArm(s: State, t: State) {
    Arm(s, t) ==> (s.backup.None? || s.backup.value == s.live) && !Switched(s)
  }

  ghost predicate Switched(s: State) {
    s.Pending() && s.link != s.guard.value.previous
  }

  ghost predicate CleanRun(run: seq<State>) {
    forall i :: 0 < i < |run| ==> CleanArm(run[i - 1], run[i])
  }

  ghost predicate Inv(s: State) {
    && Recoverable(s)
    && (s.guard.None? || s.guard.value.status == GuardStatus.RolledBack ==> s.backup.None?)
    && (s.Pending() ==> s.starts == s.guard.value.attempts < MAX_GUARD_STARTS)
    && (!s.Pending() ==> s.link == s.confirmed)
  }

  lemma StepKeepsInv(s: State, t: State)
    requires Inv(s) && Step(s, t) && CleanArm(s, t)
    ensures Inv(t)
    ensures MarkRolledBack(s, t) ==> t.link == t.guard.value.previous == t.confirmed && t.live == t.originals
  {
  }

  lemma {:induction false} CleanRunInv(run: seq<State>, n: nat)
    requires Legal(run) && CleanRun(run) && n < |run|
    ensures Inv(run[n])
  {
    if n > 0 {
      CleanRunInv(run, n - 1);
      StepKeepsInv(run[n - 1], run[n]);
    }
  }

  /** Every durable state of every cleanly armed run is recoverable, and whenever
      `rolled_back` is recorded the link is back on the release confirmed last and the
      service files are the old ones. */
  lemma CleanRunsRecover(run: seq<State>)
    requires Legal(run) && CleanRun(run)
    ensures forall i :: 0 <= i < |run| ==> Recoverable(run[i])
    ensures forall i :: 0 < i < |run| && MarkRolledBack(run[i - 1], run[i]) ==>
      run[i].link == run[i].confirmed && run[i].live == run[i].originals
  {
    forall i | 0 <= i < |run|
      ensures Inv(run[i])
    {
      CleanRunInv(run, i);
    }
    forall i | 0 < i < |run| && MarkRolledBack(run[i - 1], run[i])
      ensures run[i].link == run[i].guard.value.previous && run[i].live == run[i].originals
    {
      StepKeepsInv(run[i - 1], run[i]);
    }
  }

  /** The condition is exact: a run is recoverable throughout if and only if every guard
      record was armed with no foreign backup in place and no switched update pending. */
  lemma RecoverableIffCleanRun(run: seq<State>)
    requires Legal(run)
    ensures (forall i :: 0 <= i < |run| ==> Recoverable(run[i])) <==> CleanRun(run)
  {
    if CleanRun(run) {
      CleanRunsRecover(run);
    } else {
      var i :| 0 < i < |run| && !CleanArm(run[i - 1], run[i]);
      assert !Recoverable(run[i - 1]) || !Recoverable(run[i]);
    }
  }

  /** The code can arm over a foreign backup: the previous update was confirmed, the
      agent died before it removed the backup, and the next update starts before the
      confirmation is retried. Rolling that update back then installs service files
      two releases old. */
  lemma StaleBackupBreaksRollback()
    ensures exists run: seq<State>, i ::
      && Legal(run) && 0 < i < |run| && MarkRolledBack(run[i - 1], run[i])
      && run[i].live != run[i].originals
  {
    var a, b := Present("a", 420), Present("b", 420);
    var s0 := State(None, "1", [a], None, [a], 0, "1");
    var g1 := Guard("op1", "1", "2", GuardStatus.Pending, 0);
    var s1 := s0.(guard := Some(g1));
    var s2 := s1.(link := "2");
    var s3 := s2.(backup := Some([a]));
    var s4 := s3.(live := [b]);
    assert WriteFile(s3, s4, 0, b);
    var s5 := s4.(guard := Some(g1.(status := GuardStatus.Confirmed)), confirmed := "2");
    var g2 := Guard("op2", "2", "3", GuardStatus.Pending, 0);
    var s6 := s5.(guard := Some(g2), originals := [b]);
    assert Arm(s5, s6) && s6.link == "2" == g2.previous;
    var s7 := s6.(live := [a]);
    assert WriteFile(s6, s7, 0, a);
    var s8 := s7.(backup := None);
    var s9 := s8.(guard := Some(g2.(status := GuardStatus.RolledBack)));
    var run := [s0, s1, s2, s3, s4, s5, s6, s7, s8, s9];
    assert MarkRolledBack(run[8], run[9]);
    assert Legal(run);
  }

  /** The old agent can arm over an update that has switched the link: saving the
      checkpoint behind the switch failed, the operation failed with it, and the old agent
      went on to the next one. If that candidate does not start, the rollback ends on the
      first, which was never confirmed. If it is the same version again, the guard declares
      it rolled back while the link stays on it. */
  lemma UnconfirmedReleaseSurvivesRollback() returns (other: seq<State>, same: seq<State>)
    ensures Legal(other) && |other| > 1 && MarkRolledBack(other[|other| - 2], other[|other| - 1])
    ensures Legal(same) && |same| > 1 && MarkRolledBack(same[|same| - 2], same[|same| - 1])
    ensures other[|other| - 1].confirmed == same[|same| - 1].confirmed == "1"
    ensures other[|other| - 1].link == same[|same| - 1].link == "2"
  {
    var s0 := State(None, "1", [], None, [], 0, "1");
    var s1 := s0.(guard := Some(Guard("op1", "1", "2", GuardStatus.Pending, 0)));
    var s2 := s1.(link := "2");
    var next := Guard("op2", "2", "3", GuardStatus.Pending, 0);
    var s3 := s2.(guard := Some(next));
    var s4 := s3.(link := "3");
    var s5 := s4.(link := "2");
    var s6 := s5.(guard := Some(next.(status := GuardStatus.RolledBack)));
    var again := Guard("op2", "2", "2", GuardStatus.Pending, 0);
    var t3 := s2.(guard := Some(again));
    var t4 := t3.(guard := Some(again.(status := GuardStatus.RolledBack)));
    assert Arm(s0, s1) && SwitchForward(s1, s2) && Arm(s2, s3) && SwitchForward(s3, s4) && SwitchBack(s4, s5);
    assert MarkRolledBack(s5, s6) && Arm(s2, t3) && MarkRolledBack(t3, t4);
    other := [s0, s1, s2, s3, s4, s5, s6];
    same := [s0, s1, s2, t3, t4];
  }

  // ----- What one completed guard run does -----

  function Restored(s: State): (files: seq<ServiceFile>) {
    if s.backup.Some? then s.backup.value else s.live
  }

  ghost predicate RollsBack(s: State, deadlinePassed: bool)
    requires s.guard.Some?
  {
    || s.link == s.guard.value.previous
    || s.guard.value.attempts + 1 >= MAX_GUARD_STARTS
    || deadlinePassed
  }

  /** The effect of a guard run that returns success, whatever order it writes in. */
  ghost predicate GuardRun(s: State, deadlinePassed: bool, t: State) {
    if s.Pending() then
      if RollsBack(s, deadlinePassed) then
        && t.link == s.guard.value.previous && t.live == Restored(s) && t.backup.None?
        && t.guard == Some(s.guard.value.(status := GuardStatus.RolledBack,
            attempts := s.guard.value.attempts + if s.link == s.guard.value.previous then 0 else 1))
        && t.starts == s.starts
      else
        Authorize(s, t)
    else
      && t.link == s.link && t.guard == s.guard && t.starts == s.starts
      && if s.guard.Some? && s.guard.value.status == GuardStatus.RolledBack
         then t.live == Restored(s) && t.backup.None?
         else t.live == s.live && t.backup == s.backup
  }

  /** Within the deadline a candidate whose link stands is granted exactly two starts; the
      third completed guard run, one after the deadline, or one that finds the link back puts
      the link on the release confirmed last and restores files and record. */
  lemma ThirdStartRollsBack(s: State, deadlinePassed: bool, t: State)
    requires Inv(s) && s.Pending() && GuardRun(s, deadlinePassed, t)
    ensures s.starts < 2 && !deadlinePassed && s.link != s.guard.value.previous ==>
      && t == s.(starts := s.starts + 1, guard := t.guard)
      && t.guard == Some(s.guard.value.(attempts := s.starts + 1)) && t.guard.value.status == GuardStatus.Pending
    ensures s.starts >= 2 || deadlinePassed || s.link == s.guard.value.previous ==>
      && t.link == s.confirmed && t.live == s.originals && t.backup.None? && t.starts == s.starts
      && t.guard.Some? && t.guard.value.status == GuardStatus.RolledBack
    ensures t.Pending() ==> t.starts == s.starts + 1 <= 2
  {
  }
}
