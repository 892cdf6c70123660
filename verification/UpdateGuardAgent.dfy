/**
 The agent's code around the update guard. Every durable write goes through
 `Host.Persist`, which may do it, fail, or crash the agent, and which extends the
 ghost `run` by the state reached. Each method therefore proves that all of its
 writes are rules of `UpdateGuardRules`, wherever the agent dies.
 */
module UpdateGuardAgent {
  import opened Common
  import opened UpdateGuardRules

  datatype DiskWrite =
    | GuardRecord(record: Option<Guard>)
    | AgentLink(target: Release)
    | ServiceFileAt(index: nat, file: ServiceFile)
    | BackupFile(files: Option<seq<ServiceFile>>)

  ghost function Written(s: State, w: DiskWrite): State {
    match w
    case GuardRecord(record) => s.(guard := record)
    case AgentLink(target) => s.(link := target)
    case ServiceFileAt(i, file) => if i < |s.live| then s.(live := s.live[i := file]) else s
    case BackupFile(files) => s.(backup := files)
  }

  /** What holds of the durable state and the running process at any moment. */
  ghost predicate Consistent(s: State, process: Option<Release>) {
    && (s.backup.Some? ==> |s.backup.value| == |s.live|)
    && (s.guard.None? || s.guard.value.status == GuardStatus.RolledBack ==> s.backup.None?)
    && (s.Pending() ==>
      && s.starts == s.guard.value.attempts < MAX_GUARD_STARTS
      && s.link in {s.guard.value.previous, s.guard.value.candidate}
      && (process == Some(s.guard.value.candidate) ==> s.link == s.guard.value.candidate != s.guard.value.previous))
  }

  class Host {
    // durable state
    var guard: Option<Guard>
    var link: Release
    var live: seq<ServiceFile>
    var backup: Option<seq<ServiceFile>>
    // the agent the service manager is running, if any
    var process: Option<Release>
    // history
    ghost var originals: seq<ServiceFile>
    ghost var starts: nat
    ghost var confirmed: Release
    ghost var run: seq<State>

    ghost function Now(): State
      reads this
    {
      State(guard, link, live, backup, originals, starts, confirmed)
    }

    /** An update is pending, to the given release if one is given. */
    predicate PendingFor(release: Option<Release>)
      reads this
    {
      && guard.Some? && guard.value.status == GuardStatus.Pending
      && (release.Some? ==> guard.value.candidate == release.value)
    }

    ghost predicate Valid()
      reads this
    {
      Legal(run) && run[|run| - 1] == Now() && Consistent(Now(), process)
    }

    /** What every call keeps: the run only grows, and only a crash ends the process. */
    twostate predicate Continues(o: Outcome)
      reads this
    {
      && Valid() && old(run) <= run && |live| == old(|live|)
      && (if o.Crashed? then process.None? else process == old(process))
    }

    constructor (release: Release, files: seq<ServiceFile>)
      ensures Valid() && process.None?
      ensures Now() == State(None, release, files, None, files, 0, release)
    {
      guard, link, live, backup, process := None, release, files, None, None;
      originals, starts, confirmed := files, 0, release;
      run := [State(None, release, files, None, files, 0, release)];
    }

    /** One atomic durable write. */
    method Persist(w: DiskWrite, ghost next: State) returns (o: Outcome)
      requires Valid() && Step(Now(), next) && Consistent(next, process)
      requires next == Written(Now(), w).(originals := next.originals, starts := next.starts, confirmed := next.confirmed)
      modifies this
      ensures Continues(o)
      ensures o.Done? ==> Now() == next
      ensures o.Failed? ==> Now() == old(Now())
      ensures Now() in {old(Now()), next}
    {
      if * {
        return Failed;
      }
      if * {
        process := None;
        return Crashed;
      }
      Store(w);
      Record(next);
      o := Done;
      if * {
        process := None;
        o := Crashed;
      }
    }

    method Store(w: DiskWrite)
      modifies this`guard, this`link, this`live, this`backup
      ensures Now() == Written(old(Now()), w)
    {
      match w {
        case GuardRecord(record) => guard := record;
        case AgentLink(target) => link := target;
        case ServiceFileAt(i, file) => if i < |live| { live := live[i := file]; }
        case BackupFile(files) => backup := files;
      }
    }

    ghost method Record(next: State)
      requires Legal(run) && Step(run[|run| - 1], next)
      modifies this`originals, this`starts, this`confirmed, this`run
      ensures originals == next.originals && starts == next.starts && confirmed == next.confirmed
      ensures run == old(run) + [next] && Legal(run)
    {
      ExtendLegal(run, next);
      originals, starts, confirmed, run := next.originals, next.starts, next.confirmed, run + [next];
    }

    // ----- Service files -----

    /** May `files` be written over the live service files now? */
    ghost predicate MayInstall(files: seq<ServiceFile>)
      reads this
    {
      && |files| == |live|
      && (Now().Pending() ==> backup.Some? && (link == guard.value.previous ==> files == backup.value))
    }

    method WriteServiceFiles(files: seq<ServiceFile>) returns (o: Outcome)
      requires Valid() && MayInstall(files)
      modifies this
      ensures Continues(o)
      ensures Now() == old(Now()).(live := live)
      ensures o.Done? ==> live == files
    {
      var i := 0;
      while i < |files|
        invariant 0 <= i <= |files|
        invariant Continues(Done) && MayInstall(files) && Now() == old(Now()).(live := live)
        invariant live[..i] == files[..i]
      {
        assert WriteFile(Now(), Now().(live := live[i := files[i]]), i, files[i]);
        o := Persist(ServiceFileAt(i, files[i]), Now().(live := live[i := files[i]]));
        if !o.Done? {
          return;
        }
        i := i + 1;
      }
      o := Done;
    }

    /** Reloading the service manager changes no durable state. */
    method ReloadServices() returns (o: Outcome)
      requires Valid()
      modifies this
      ensures Continues(o) && Now() == old(Now())
    {
      o := Done;
      if * {
        o := Failed;
      } else if * {
        process, o := None, Crashed;
      }
    }

    method ClearServiceBackup() returns (o: Outcome)
      requires Valid() && (Now().Pending() ==> backup == Some(live) && link == guard.value.previous)
      modifies this
      ensures Continues(o)
      ensures Now() == old(Now()).(backup := backup)
      ensures o.Done? ==> backup.None?
    {
      if backup.None? {
        return Done;
      }
      o := Persist(BackupFile(None), Now().(backup := None));
    }

    method RestoreServiceBackup() returns (o: Outcome)
      requires Valid() && (Now().Pending() ==> link == guard.value.previous)
      modifies this
      ensures Continues(o)
      ensures Now() == old(Now()).(live := live, backup := backup)
      ensures o.Done? ==> live == Restored(old(Now())) && backup.None?
    {
      if backup.None? {
        return Done;
      }
      if * {
        return Failed; // unreadable backup
      }
      o := WriteServiceFiles(backup.value);
      if !o.Done? {
        return;
      }
      o := ReloadServices();
      if !o.Done? {
        return;
      }
      o := ClearServiceBackup();
    }

    /** Best effort: the first error is reported whatever happens here. */
    method UndoServiceWrite(previous: seq<ServiceFile>) returns (o: Outcome)
      requires Valid() && MayInstall(previous)
      modifies this
      ensures Continues(o) && !o.Done?
      ensures Now() == old(Now()).(live := live)
    {
      o := WriteServiceFiles(previous);
      if o.Crashed? {
        return;
      }
      o := ReloadServices();
      if o.Done? {
        o := Failed;
      }
    }

    method SyncServiceUnits(desired: seq<ServiceFile>) returns (o: Outcome)
      requires Valid() && process.Some? && |desired| == |live|
      requires Now().Pending() ==> process == Some(guard.value.candidate)
      modifies this
      ensures Continues(o)
      ensures Now() == old(Now()).(live := live, backup := backup)
      ensures backup == (if old(Now().Pending() && backup.None?) && backup.Some? then Some(old(live)) else old(backup))
      ensures o.Done? ==> live == desired
    {
      if * {
        return Failed; // a file or the guard record is unreadable
      }
      var previous := live;
      var pending := guard.Some? && guard.value.status == GuardStatus.Pending;
      if previous == desired {
        if backup.Some? {
          o := ReloadServices();
          return;
        }
        return Done;
      }
      if pending && backup.None? {
        o := Persist(BackupFile(Some(previous)), Now().(backup := Some(previous)));
        if !o.Done? {
          return;
        }
      }
      o := WriteServiceFiles(desired);
      if o.Crashed? {
        return;
      }
      if o.Done? {
        o := ReloadServices();
        if !o.Failed? {
          return;
        }
      }
      o := UndoServiceWrite(previous);
    }

    // ----- Guard -----

    /** Run by the service manager before it starts the agent. Within the deadline the
        unconfirmed candidate is granted two starts, which are charged and change nothing
        else. Otherwise, or when the link is back already, everything is put back. Without a
        pending update nothing happens but for what an earlier rollback left to restore. */
    method RunAgentGuard(deadlinePassed: bool) returns (o: Outcome)
      requires Valid() && process.None?
      modifies this
      ensures Continues(o)
      ensures o.Done? ==> GuardRun(old(Now()), deadlinePassed, Now())
      ensures (&& o.Done? && old(guard.Some? && guard.value.status == GuardStatus.Pending && link != guard.value.previous)
               && old(starts) < 2 && !deadlinePassed) ==>
        && link == old(link) && live == old(live) && backup == old(backup) && starts == old(starts) + 1
        && guard == Some(old(guard).value.(attempts := old(guard).value.attempts + 1))
      ensures (&& o.Done? && old(guard.Some? && guard.value.status == GuardStatus.Pending)
               && (deadlinePassed || old(starts) >= 2 || old(link) == old(guard).value.previous)) ==>
        && guard.Some? && guard.value.status == GuardStatus.RolledBack && link == guard.value.previous == old(guard).value.previous
        && live == (if old(backup).Some? then old(backup).value else old(live)) && backup.None? && starts == old(starts)
      ensures o.Done? && !old(guard.Some? && guard.value.status == GuardStatus.Pending) ==>
        && link == old(link) && guard == old(guard) && live == old(live) && backup == old(backup)
    {
      if guard.None? {
        return Done;
      }
      var state := guard.value;
      if state.status == GuardStatus.RolledBack {
        o := RestoreServiceBackup();
        return;
      }
      if state.status == GuardStatus.Confirmed {
        return Done;
      }
      if * {
        return Failed; // a target outside the release directory, or an unreadable link
      }
      if link != state.previous {
        state := state.(attempts := state.attempts + 1);
        if state.attempts < MAX_GUARD_STARTS && !deadlinePassed {
          o := Persist(GuardRecord(Some(state)), Now().(guard := Some(state), starts := starts + 1));
          return;
        }
        if * {
          return Failed; // the previous release is gone
        }
        o := Persist(AgentLink(state.previous), Now().(link := state.previous));
        if !o.Done? {
          return;
        }
      }
      o := RestoreServiceBackup();
      if !o.Done? {
        return;
      }
      state := state.(status := GuardStatus.RolledBack);
      assert MarkRolledBack(Now(), Now().(guard := Some(state)));
      o := Persist(GuardRecord(Some(state)), Now().(guard := Some(state)));
    }

    /** Run after a config cycle of the new agent sent its heartbeat. */
    method ConfirmAgentUpdateGuard(desired: seq<ServiceFile>, heartbeatConfirmed: bool) returns (o: Outcome)
      requires Valid() && process.Some? && |desired| == |live|
      modifies this
      ensures Continues(o) && link == old(link)
      ensures o.Done? && old(Now().Pending()) && process == Some(old(guard).value.candidate) ==>
        guard.None? && backup.None? && live == desired && heartbeatConfirmed && confirmed == link == process.value
      ensures o.Done? && old(guard.Some? && guard.value.status == GuardStatus.Confirmed
          && process == Some(guard.value.candidate)) ==>
        guard.None? && backup.None? && live == old(live)
      ensures old(guard.None? || guard.value.status == GuardStatus.RolledBack || process != Some(guard.value.candidate)) ==>
        o.Done? && Now() == old(Now())
      ensures old(Now().Pending()) && old(process == Some(guard.value.candidate)) && !heartbeatConfirmed ==>
        o.Failed? && Now() == old(Now())
    {
      if guard.None? || guard.value.status == GuardStatus.RolledBack || process.value != guard.value.candidate {
        return Done;
      }
      if guard.value.status == GuardStatus.Pending {
        if !heartbeatConfirmed {
          return Failed;
        }
        if * {
          return Failed; // the rollback helper could not be refreshed
        }
        o := SyncServiceUnits(desired);
        if !o.Done? {
          return;
        }
        var state := guard.value.(status := GuardStatus.Confirmed);
        o := Persist(GuardRecord(Some(state)), Now().(guard := Some(state), confirmed := link));
        if !o.Done? {
          return;
        }
      }
      o := ClearServiceBackup();
      if !o.Done? {
        return;
      }
      o := Persist(GuardRecord(None), Now().(guard := None));
    }

    /** The committing tail of an agent update, run by the old agent once the candidate has
        been downloaded and checked. Wherever it fails, the old agent goes on running, even
        when the link is already on the candidate. */
    method UpdateAgent(operation: string, candidate: Release) returns (o: Outcome)
      requires Valid() && process.Some?
      requires !PendingFor(process)
      modifies this
      ensures Continues(o)
      ensures o.Done? && Some(candidate) != old(process) ==>
        Now().Pending() && link == candidate && guard.value == Guard(operation, old(link), candidate, GuardStatus.Pending, 0)
      ensures o.Done? && Some(candidate) == old(process) ==> Now() == old(Now())
      ensures live == old(live) && backup == old(backup) && confirmed == old(confirmed) && link in {old(link), candidate}
      ensures old(guard.Some? && guard.value.operation == operation && guard.value.status == GuardStatus.RolledBack) ==> !o.Done?
    {
      if guard.Some? && guard.value.operation == operation && guard.value.status == GuardStatus.RolledBack {
        o := Persist(GuardRecord(None), Now().(guard := None));
        if o.Done? {
          o := Failed;
        }
        return;
      }
      if candidate == process.value {
        return Done; // already running this version
      }
      if * {
        return Failed; // download, validation or a cancellation
      }
      var record := Guard(operation, link, candidate, GuardStatus.Pending, 0);
      o := Persist(GuardRecord(Some(record)), Now().(guard := Some(record), originals := live, starts := 0));
      if !o.Done? {
        return;
      }
      o := Persist(AgentLink(candidate), Now().(link := candidate));
      if !o.Done? {
        return;
      }
      if * {
        return Failed; // the checkpoint cannot be saved
      }
    }

    // ----- Whole runs -----

    /** Start the agent the way the service manager does. */
    method StartService(deadlinePassed: bool) returns (o: Outcome)
      requires Valid() && process.None?
      modifies this
      ensures Valid() && old(run) <= run && |live| == old(|live|)
      ensures o.Done? ==> GuardRun(old(Now()), deadlinePassed, Now()) && process == Some(link)
      ensures !o.Done? ==> process.None?
    {
      o := RunAgentGuard(deadlinePassed);
      if o.Done? {
        process := Some(link);
      }
    }

    method Stop()
      requires Valid()
      modifies this
      ensures Valid() && Now() == old(Now()) && run == old(run) && process.None?
    {
      process := None;
    }
  }

  /** What may happen to an agent. The service definitions a release wants are its own. */
  datatype Action =
    | Start(late: bool)
    | Halt
    | Confirm(desired: seq<ServiceFile>, heartbeat: bool)
    | Synchronize(desired: seq<ServiceFile>)
    | Update(operation: string, candidate: Release)

  /** When the agent gets to it: services are synchronised on startup unless an update is
      pending, and an unconfirmed candidate starts no operation. */
  predicate Comes(h: Host, a: Action)
    reads h
  {
    match a
    case Start(_) => h.process.None?
    case Halt => h.process.Some?
    case Confirm(desired, _) => h.process.Some? && |desired| == |h.live|
    case Synchronize(desired) => h.process.Some? && |desired| == |h.live| && !h.PendingFor(None)
    case Update(_, _) => h.process.Some? && !h.PendingFor(h.process)
  }

  method Perform(h: Host, a: Action)
    requires h.Valid() && Comes(h, a)
    modifies h
    ensures h.Valid() && old(h.run) <= h.run && |h.live| == old(|h.live|)
  {
    var o: Outcome;
    match a {
      case Start(late) => o := h.StartService(late);
      case Halt => h.Stop();
      case Confirm(desired, heartbeat) => o := h.ConfirmAgentUpdateGuard(desired, heartbeat);
      case Synchronize(desired) => o := h.SyncServiceUnits(desired);
      case Update(operation, candidate) =>
        var restart := Some(candidate) != h.process;
        o := h.UpdateAgent(operation, candidate);
        if o.Done? && restart {
          h.Stop();
        }
    }
  }

  /** Any sequence of starts, crashes, confirmations, synchronisations and updates, each cut
      short anywhere, by any operations and with any service definitions: the durable states
      it goes through form a legal run, so they are recoverable exactly when every update was
      armed cleanly. */
  method Lifetime(h: Host, actions: seq<Action>)
    requires h.Valid()
    modifies h
    ensures h.Valid() && old(h.run) <= h.run
    ensures (forall s :: s in h.run ==> Recoverable(s)) <==> CleanRun(h.run)
  {
    var i := 0;
    while i < |actions|
      invariant h.Valid() && old(h.run) <= h.run
    {
      if Comes(h, actions[i]) {
        Perform(h, actions[i]);
      }
      i := i + 1;
    }
    RecoverableIffCleanRun(h.run);
  }
}
