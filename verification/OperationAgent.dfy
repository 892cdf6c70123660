/**
 The agent's side of the operation protocol: claim, durable outbox, delivery with
 retries. Every atomic action is one step of `OperationOutbox`, kept in the ghost
 `run`; the methods prove it for every way the network and the disk can fail.
 */
module OperationAgent {
  import opened Common
  import opened OperationLog
  import opened OperationStore
  import opened OperationOutbox

  /** What the network does to one request. */
  datatype Transport = RequestLost | ServerBusy | ResponseLost | Answered

  /** What the agent gets to see of a claim: nothing, 204, 409, or an assignment. */
  datatype ClaimResponse = NoResponse | NoContent | Conflict | Assigned(assignment: Assignment)

  /** A claim that presented a lease and got nothing means that the lease is void. */
  function ClaimAnswer(current: Option<(OperationId, Token)>, found: Option<Assignment>): ClaimResponse {
    if found.Some? then Assigned(found.value) else if current.Some? then Conflict else NoContent
  }

  /** How the executor ends; a committed result cannot be undone. `leaseLost`: the monitor
      that renews the lease meanwhile has given up. */
  datatype Ending = Completed(committed: bool, leaseLost: bool) | Broke | Interrupted | RestartRequired

  datatype Outcomes = Outcomes(succeeded: Event, failed: Event, cancelled: Event)
  {
    predicate Valid() {
      succeeded.status in REPORTABLE && failed.status in REPORTABLE && cancelled.status in REPORTABLE
    }

    function For(ending: Ending): Event {
      match ending
      case Completed(_, _) => succeeded
      case Interrupted => cancelled
      case _ => failed
    }
  }

  /** The last renewal: the lease was extended, or lost, or nothing came of it. */
  datatype Renewal = Held(cancelRequested: bool) | NotHeld

  function AfterRenewal(ending: Ending, renewal: Renewal): Ending
    requires ending.Completed?
  {
    if ending.committed then ending
    else match renewal
      case NotHeld => Broke
      case Held(cancelRequested) => if cancelRequested then Interrupted else ending
  }

  ghost predicate CleanFrom(run: seq<World>, start: nat) {
    forall i :: start <= i < |run| && 0 < i ==> CleanStep(run[i - 1], run[i])
  }

  lemma CleanPair(run: seq<World>, mid: World, last: World)
    requires run != [] && CleanStep(run[|run| - 1], mid) && CleanStep(mid, last)
    ensures CleanFrom(run + [mid] + [last], |run|)
  {
  }

  /** The lease a claim presents. */
  function Presented(m: Option<OpState>): Option<(OperationId, Token)> {
    if m.Some? then Some((m.value.assignment.operation, m.value.assignment.token)) else None
  }

  /** A served claim whose response may or may not reach the agent. */
  lemma ServedIsStep(s: World, t: World, current: Option<(OperationId, Token)>, r: Option<Assignment>, newToken: Token,
                     capabilities: set<string>, now: int)
    requires Served(s.log, t.log, current, r, newToken, now) && newToken != ""
    requires r.Some? ==> Granted(t.log, r.value, s.node, capabilities, now)
    requires s.mem == s.disk && s.reply.None? && t == s.(log := t.log, reply := t.reply) && t.reply in {None, r}
    requires current == Presented(s.mem)
    ensures Step(s, t) && CleanStep(s, t)
  {
    assert if t.reply.None? then ServerStep(s, t) else ServeClaim(s, t, now);
  }

  lemma ExpiryIsStep(s: World, t: World)
    requires Withdraw(s.log, t.log) && t == s.(log := t.log)
    ensures Step(s, t) && CleanStep(s, t)
  {
    assert ServerStep(s, t);
  }

  lemma RenewalIsStep(s: World, t: World, a: Assignment, now: int)
    requires t == s.(log := t.log) && (t.log == s.log || Extend(s.log, t.log, a.operation, a.token, now))
    ensures Step(s, t)
  {
    assert ServerStep(s, t);
  }

  class Agent {
    const node: NodeId
    const server: Store
    var mem: Option<OpState>
    var disk: Option<OpState>
    ghost var sent: set<Report>
    ghost var reply: Option<Assignment>
    ghost var run: seq<World>

    ghost function Now(): World
      reads this, server
    {
      World(node, server.State(), sent, reply, mem, disk)
    }

    ghost predicate Valid()
      reads this, server
    {
      server.Valid() && Legal(run) && run[|run| - 1] == Now()
    }

    constructor (node: NodeId)
      ensures Valid() && mem.None? && disk.None? && reply.None? && fresh(server)
    {
      this.node, mem, disk, sent, reply := node, None, None, {}, None;
      var store := new Store();
      server := store;
      run := [World(node, Log(map[], map[], {}), {}, None, None, None)];
      new;
      assert Now() == run[0];
    }

    ghost method Commit()
      requires server.Valid() && Legal(run) && Step(run[|run| - 1], Now())
      modifies this`run
      ensures Valid() && run == old(run) + [Now()] && |run| > 1
    {
      ExtendLegal(run, Now());
      run := run + [Now()];
    }

    // ----- Saved record -----

    /** The saved record is one of this assignment. */
    ghost predicate Kept(a: Assignment)
      reads this
    {
      disk.Some? && disk.value.assignment == a
    }

    method SaveOperationState() returns (o: Outcome)
      requires Valid() && mem.Some? && reply.None?
      modifies this`disk, this`mem, this`run
      ensures Valid() && old(run) <= run && CleanFrom(run, |old(run)|)
      ensures o.Done? ==> disk == mem == old(mem)
      ensures o.Failed? ==> disk == old(disk) && mem == old(mem)
      ensures o.Crashed? ==> mem.None?
      ensures old(Kept(mem.value.assignment)) ==> Kept(old(mem).value.assignment)
    {
      if * {
        return Outcome.Failed;
      }
      if * {
        mem := None;
        Commit();
        return Crashed;
      }
      disk := mem;
      assert Save(old(Now()), Now());
      Commit();
      return Done;
    }

    method ClearOperationState()
      requires Valid() && mem.Some? && reply.None?
      modifies this`disk, this`mem, this`run
      ensures Valid() && old(run) <= run && CleanFrom(run, |old(run)|)
      ensures mem.None? && disk.None?
    {
      mem, disk := None, None;
      assert Clear(old(Now()), Now());
      Commit();
    }

    /** The process restarts and reads the record it saved. */
    method Restart()
      requires Valid()
      modifies this`mem, this`reply, this`run
      ensures Valid() && old(run) <= run && CleanFrom(run, |old(run)|)
      ensures mem == disk && reply.None?
    {
      mem, reply := disk, None;
      assert Load(old(Now()), Now());
      Commit();
    }

    // ----- Outbox -----

    /** The report the next delivery is about: a report left over from before the
        restart goes first, and the new event is dropped. */
    ghost function Outgoing(m: OpState, event: Event): Report {
      if m.pending.Some? then m.pending.value else NextReport(m, event)
    }

    ghost function Queued(m: OpState, event: Event): OpState {
      m.(pending := Some(Outgoing(m, event)))
    }

    /** The record still waits with the same report, or the report was delivered. */
    ghost predicate SameOrDelivered(m: OpState, n: OpState) {
      n == m || (m.pending.Some? && n == m.(lastSequence := m.pending.value.slot.sequence, pending := None))
    }

    ghost predicate Stored(r: Report)
      reads server
    {
      r.slot in server.events && server.events[r.slot] == r.event
    }

    ghost predicate Reportable()
      reads this
    {
      mem.Some? && mem.value.pending.Some? ==> mem.value.pending.value.event.status in REPORTABLE
    }

    /** Put the pending report on the wire once. */
    method Transmit(network: Transport) returns (verdict: Option<Verdict>)
      requires Valid() && mem.Some? && reply.None? && mem.value.pending.Some? && Reportable()
      modifies this`sent, this`run, server
      ensures Valid() && old(run) <= run
      ensures old(Saved(Now())) ==> CleanFrom(run, |old(run)|)
      ensures verdict.Some? ==> network.Answered?
      ensures verdict in {Some(Appended), Some(Replayed)} ==> Stored(mem.value.pending.value)
    {
      var report := mem.value.pending.value;
      sent := sent + {report};
      assert Send(old(Now()), Now());
      Commit();
      if network in {RequestLost, ServerBusy} {
        return None;
      }
      var v := Arrive(report);
      return if network.Answered? then Some(v) else None;
    }

    method Arrive(report: Report) returns (verdict: Verdict)
      requires Valid() && report in sent && report.event.status in REPORTABLE
      modifies this`run, server
      ensures Valid() && old(run) <= run && CleanFrom(run, |old(run)|)
      ensures verdict in {Appended, Replayed} ==> Stored(report)
    {
      hide OperationLog.Inv, OperationLog.Run, Legal;
      var now: int := *;
      verdict := server.RecordNodeOperationEvent(node, report, now);
      assert Deliver(old(Now()), Now(), report, now);
      Commit();
    }

    /** The server has the pending report: advance the record and save it. */
    method Acknowledge() returns (o: Outcome)
      requires Valid() && mem.Some? && reply.None? && mem.value.pending.Some? && Stored(mem.value.pending.value)
      modifies this`disk, this`mem, this`run
      ensures Valid() && old(run) <= run && CleanFrom(run, |old(run)|) && (mem.None? <==> o.Crashed?)
      ensures !o.Crashed? ==>
        mem == Some(old(mem).value.(lastSequence := old(mem).value.pending.value.slot.sequence, pending := None))
      ensures o.Done? ==> disk == mem
      ensures old(Kept(mem.value.assignment)) ==> Kept(old(mem).value.assignment)
    {
      mem := Some(mem.value.(lastSequence := mem.value.pending.value.slot.sequence, pending := None));
      assert Ack(old(Now()), Now());
      Commit();
      o := SaveOperationState();
    }

    /** Deliver the pending report, retrying as long as the network gives a chance. */
    method FlushPendingOperationEvent(network: seq<Transport>) returns (o: Outcome)
      requires Valid() && mem.Some? && reply.None? && Reportable()
      modifies this`disk, this`mem, this`sent, this`run, server
      ensures Valid() && old(run) <= run && Reportable() && (mem.None? <==> o.Crashed?)
      ensures old(mem.value.pending.None? || Saved(Now())) ==> CleanFrom(run, |old(run)|)
      ensures old(mem).value.pending.None? ==> o.Done? && mem == old(mem) && disk == old(disk)
      ensures mem.Some? ==> SameOrDelivered(old(mem).value, mem.value)
      ensures old(Kept(mem.value.assignment)) ==> Kept(old(mem).value.assignment)
      ensures old(mem).value.pending.Some? && o.Done? ==>
        && Stored(old(mem).value.pending.value) && disk == mem
        && mem == Some(old(mem).value.(lastSequence := old(mem).value.pending.value.slot.sequence, pending := None))
    {
      if mem.value.pending.None? {
        return Done;
      }
      var i := 0;
      while i < |network|
        invariant 0 <= i <= |network|
        invariant Valid() && old(run) <= run && mem == old(mem) && disk == old(disk) && reply.None?
        invariant old(Saved(Now())) ==> CleanFrom(run, |old(run)|)
      {
        var verdict := Transmit(network[i]);
        if verdict in {Some(Appended), Some(Replayed)} {
          o := Acknowledge();
          return;
        }
        if verdict.Some? {
          return Outcome.Failed;
        }
        i := i + 1;
      }
      return Outcome.Failed; // cancelled while retrying
    }

    /** Put an event in the outbox and save it. */
    method EnqueueEvent(event: Event) returns (o: Outcome)
      requires Valid() && mem.Some? && reply.None? && event.status in REPORTABLE && mem.value.pending.None?
      modifies this`disk, this`mem, this`run
      ensures Valid() && old(run) <= run && CleanFrom(run, |old(run)|) && (mem.None? <==> o.Crashed?)
      ensures mem.Some? ==> mem.value == Queued(old(mem).value, event) && mem.value.pending == Some(NextReport(old(mem).value, event))
      ensures o.Done? ==> disk == mem
      ensures old(Kept(mem.value.assignment)) ==> Kept(old(mem).value.assignment)
    {
      hide OperationLog.Inv, OperationLog.Run;
      mem := Some(mem.value.(pending := Some(NextReport(mem.value, event))));
      assert Enqueue(old(Now()), Now(), event);
      Commit();
      o := SaveOperationState();
    }

    /** Save an event in the outbox, then deliver it. */
    method ReportOperationEvent(event: Event, network: seq<Transport>) returns (o: Outcome)
      requires Valid() && mem.Some? && reply.None? && event.status in REPORTABLE && Reportable()
      modifies this`disk, this`mem, this`sent, this`run, server
      ensures Valid() && old(run) <= run && Reportable() && (mem.None? <==> o.Crashed?)
      ensures old(mem.value.pending.None? || Saved(Now())) ==> CleanFrom(run, |old(run)|)
      ensures mem.Some? ==> SameOrDelivered(Queued(old(mem).value, event), mem.value)
      ensures old(Kept(mem.value.assignment)) ==> Kept(old(mem).value.assignment)
      ensures o.Done? ==> var r := Outgoing(old(mem).value, event);
        Stored(r) && disk == mem && mem == Some(old(mem).value.(lastSequence := r.slot.sequence, pending := None))
    {
      hide Legal, OperationLog.Inv, OperationLog.Run;
      if mem.value.pending.None? {
        o := EnqueueEvent(event);
        if !o.Done? {
          return;
        }
      }
      o := FlushPendingOperationEvent(network);
    }

    // ----- Claims -----

    /** One round of the claim loop; the response may be lost, and a rejected lease
        makes the agent drop its record. */
    method ClaimOperation(capabilities: set<string>, newToken: Token, now: int, network: Transport) returns (o: Outcome)
      requires Valid() && reply.None? && newToken !in server.issued && newToken != ""
      modifies this`disk, this`mem, this`reply, this`run, server
      ensures Valid() && old(run) <= run && CleanFrom(run, |old(run)|) && reply.None?
      ensures !network.Answered? ==> disk == old(disk) && !o.Done?
      ensures o.Done? ==> mem.Some? && disk == mem
      ensures o.Done? && old(disk).Some? && old(disk).value.Same(mem.value.assignment.operation, mem.value.assignment.attempt) ==>
        mem.value.lastSequence == old(disk).value.lastSequence && mem.value.pending == old(disk).value.pending
      ensures o.Done? && !(old(disk).Some? && old(disk).value.Same(mem.value.assignment.operation, mem.value.assignment.attempt)) ==>
        mem.value.lastSequence == 0 && mem.value.pending.None?
      ensures network.Answered? && !o.Crashed? ==>
        forall id <- old(server.ops) | Waits(old(server.ops)[id], node, capabilities, now) ::
          mem.Some? && mem.value.assignment == Assignment(id, old(server.ops)[id].attempt + 1, newToken)
    {
      Restart();
      if network in {RequestLost, ServerBusy} {
        return Outcome.Failed;
      }
      var response := AskServer(capabilities, newToken, now, network.Answered?);
      match response {
        case NoResponse => return Outcome.Failed;
        case NoContent => return Outcome.Failed; // nothing to do, ask again
        case Conflict =>
          ClearOperationState(); // the lease was refused
          return Outcome.Failed;
        case Assigned(assignment) => o := AdoptReply(assignment);
      }
    }

    /** The server serves the claim; a lost response leaves the agent with nothing. */
    method AskServer(capabilities: set<string>, newToken: Token, now: int, answered: bool) returns (response: ClaimResponse)
      requires Valid() && reply.None? && mem == disk && newToken !in server.issued && newToken != ""
      modifies this`reply, this`run, server
      ensures Valid() && old(run) <= run && CleanFrom(run, |old(run)|)
      ensures reply == if response.Assigned? then Some(response.assignment) else None
      ensures response.NoResponse? <==> !answered
      ensures (response.Conflict? ==> mem.Some?) && (response.NoContent? ==> mem.None?)
      ensures answered ==> forall id <- old(server.ops) | Waits(old(server.ops)[id], node, capabilities, now) ::
        response == Assigned(Assignment(id, old(server.ops)[id].attempt + 1, newToken))
    {
      hide Served, Granted, Withdraw, Step, CleanStep, Legal, CleanFrom, OperationLog.Inv, OperationLog.Run;
      var current := Presented(mem);
      ghost var before := Now();
      var served;
      ghost var expired;
      served, expired := server.ClaimNodeOperation(node, capabilities, current, newToken, now);
      response := if answered then ClaimAnswer(current, served) else NoResponse;
      reply := if response.Assigned? then Some(response.assignment) else None;
      CommitServed(before, expired, served, newToken, capabilities, now);
    }

    /** The two transactions of a served claim, as steps of the whole system. */
    ghost method CommitServed(before: World, expired: Log, served: Option<Assignment>, newToken: Token,
                              capabilities: set<string>, now: int)
      requires server.Valid() && Legal(run) && run[|run| - 1] == before && before.mem == before.disk && before.reply.None?
      requires Withdraw(before.log, expired) && Served(expired, Now().log, Presented(before.mem), served, newToken, now)
      requires served.Some? ==> Granted(Now().log, served.value, before.node, capabilities, now)
      requires newToken != "" && Now() == before.(log := Now().log, reply := reply) && reply in {None, served}
      modifies this`run
      ensures Valid() && old(run) <= run && CleanFrom(run, |old(run)|)
    {
      hide Served, Granted, Withdraw, Step, CleanStep, OperationLog.Inv, OperationLog.Run;
      var mid := before.(log := expired);
      ExpiryIsStep(before, mid);
      ServedIsStep(mid, Now(), Presented(before.mem), served, newToken, capabilities, now);
      CommitTwo(mid);
    }

    /** Two server transactions happened in one request. */
    ghost method CommitTwo(mid: World)
      requires server.Valid() && Legal(run) && Step(run[|run| - 1], mid) && CleanStep(run[|run| - 1], mid)
      requires Step(mid, Now()) && CleanStep(mid, Now())
      modifies this`run
      ensures Valid() && old(run) <= run && CleanFrom(run, |old(run)|)
    {
      hide Step, CleanStep;
      ExtendLegal(run, mid);
      ExtendLegal(run + [mid], Now());
      CleanPair(run, mid, Now());
      run := run + [mid] + [Now()];
    }

    method AdoptReply(a: Assignment) returns (o: Outcome)
      requires Valid() && reply == Some(a)
      modifies this`disk, this`mem, this`reply, this`run
      ensures Valid() && old(run) <= run && CleanFrom(run, |old(run)|) && reply.None?
      ensures o.Done? ==> mem == disk == Some(Adopted(old(mem), a))
      ensures !o.Crashed? ==> mem == Some(Adopted(old(mem), a))
    {
      mem, reply := Some(Adopted(mem, a)), None;
      assert Adopt(old(Now()), Now());
      Commit();
      o := SaveOperationState();
    }

    // ----- Running an operation -----

    /** The server is asked to extend the lease. */
    method Extend(a: Assignment, now: int) returns (cancel: Option<bool>)
      requires Valid()
      modifies this`run, server
      ensures Valid() && old(run) <= run
      ensures cancel.Some? ==> Extended(run, a, cancel.value, |old(run)|)
    {
      hide OperationLog.Inv, OperationLog.Run, Step, Legal;
      ghost var before := Now();
      cancel := server.RenewLease(node, a.operation, a.token, a.attempt, now);
      RenewalIsStep(before, Now(), a, now);
      Commit();
      if cancel.Some? {
        assert run[|run| - 2] == before && run[|run| - 1] == Now();
        assert ExtendedAt(run, |run| - 1, now, a, cancel.value);
      }
    }

    /** One request to renew the lease. */
    method RequestRenewal(network: Transport) returns (renewal: Option<Renewal>)
      requires Valid() && mem.Some? && reply.None?
      modifies this`run, server
      ensures Valid() && old(run) <= run
      ensures renewal.Some? ==> network.Answered?
      ensures renewal.Some? && renewal.value.Held? ==>
        Extended(run, mem.value.assignment, renewal.value.cancelRequested, |old(run)|)
    {
      hide Legal, OperationLog.Inv, OperationLog.Run, Extended;
      if network in {RequestLost, ServerBusy} {
        return None;
      }
      var now: int := *;
      var cancel := Extend(mem.value.assignment, now);
      if !network.Answered? {
        return None;
      }
      return Some(if cancel.Some? then Held(cancel.value) else NotHeld);
    }

    /** Renew the lease, retrying for a while. */
    method RenewLease(network: seq<Transport>) returns (renewal: Renewal)
      requires Valid() && mem.Some? && reply.None?
      modifies this`run, server
      ensures Valid() && old(run) <= run
      ensures renewal.Held? ==> Extended(run, mem.value.assignment, renewal.cancelRequested, |old(run)|)
    {
      hide Legal, OperationLog.Inv, OperationLog.Run, Extended;
      for i := 0 to |network|
        invariant Valid() && old(run) <= run
      {
        ghost var start := |run|;
        var answer := RequestRenewal(network[i]);
        if answer.Some? {
          if answer.value.Held? {
            ExtendedStays(run, run, mem.value.assignment, answer.value.cancelRequested, start, |old(run)|);
          }
          return answer.value;
        }
      }
      return NotHeld;
    }

    /** What the executor reports on the way; a report that fails ends it, and may be left
        in the outbox. */
    method ReportProgress(progress: seq<Event>, network: seq<Transport>) returns (o: Outcome, broke: bool)
      requires Valid() && mem.Some? && reply.None? && mem.value.pending.None?
      requires forall e <- progress :: e.status in REPORTABLE
      modifies this`disk, this`mem, this`sent, this`run, server
      ensures Valid() && old(run) <= run && o in {Done, Crashed}
      ensures o.Done? ==> mem.Some? && Reportable() && mem.value.assignment == old(mem).value.assignment
      ensures o.Done? && !broke ==> mem.value.pending.None?
      ensures o.Done? && mem.value.pending.Some? ==> About(mem.value.pending.value, mem.value.assignment, progress)
      ensures old(Kept(mem.value.assignment)) ==> Kept(old(mem).value.assignment)
    {
      broke := false;
      var i := 0;
      while i < |progress|
        modifies this`disk, this`mem, this`sent, this`run, server
        invariant 0 <= i <= |progress| && Valid() && old(run) <= run && mem.Some? && reply.None?
        invariant mem.value.pending.None? && mem.value.assignment == old(mem).value.assignment
        invariant old(Kept(mem.value.assignment)) ==> Kept(old(mem).value.assignment)
      {
        o := ReportOperationEvent(progress[i], network);
        if o.Crashed? {
          return;
        }
        if o.Failed? {
          return Done, true;
        }
        i := i + 1;
      }
      o := Done;
    }

    ghost predicate About(r: Report, a: Assignment, events: seq<Event>) {
      r.slot.operation == a.operation && r.slot.attempt == a.attempt && r.event in events
    }

    /** Work on a claimed operation: a leftover report first, the start event, the
        executor's progress, a last renewal of the lease, and the outcome. The record is
        dropped at the end, and kept on disk wherever the work stops before that. */
    method RunClaimedOperation(progress: seq<Event>, ending: Ending, outcomes: Outcomes, network: seq<Transport>)
      returns (o: Outcome, broke: bool)
      requires Valid() && mem.Some? && reply.None? && disk == mem && Reportable()
      requires outcomes.Valid() && forall e <- progress :: e.status in REPORTABLE
      modifies this`disk, this`mem, this`sent, this`run, server
      ensures Valid() && old(run) <= run
      ensures if o.Done? then mem.None? && disk.None? else Kept(old(mem).value.assignment)
      ensures o.Done? ==> exists r: Report ::
        && Stored(r) && old(mem).value.Same(r.slot.operation, r.slot.attempt)
        && ((broke && r.event in progress) || Justified(run, r.event, ending, broke, outcomes, old(mem).value.assignment, |old(run)|))
    {
      hide Legal, OperationLog.Inv, OperationLog.Run, CleanFrom, Saved, SameOrDelivered, Extended;
      ghost var a, start := mem.value.assignment, |run|;
      broke := false;
      o := FlushPendingOperationEvent(network);
      if !o.Done? {
        return;
      }
      if mem.value.lastSequence == 0 {
        o := ReportOperationEvent(STARTED, network);
        if !o.Done? {
          return;
        }
      }
      o, broke := ReportProgress(progress, network);
      if o.Crashed? {
        return;
      }
      if ending.RestartRequired? {
        return Outcome.Failed, broke; // the record waits for the new process
      }
      var final := Conclude(ending, broke, outcomes, network, start);
      ghost var last, before := Outgoing(mem.value, final), run;
      o := Finish(final, network);
      if o.Done? {
        JustifiedStays(before, run, final, ending, broke, outcomes, a, start);
        assert Stored(last);
      }
    }

    /** Report the outcome, and drop the record once a report got through. */
    method Finish(final: Event, network: seq<Transport>) returns (o: Outcome)
      requires Valid() && mem.Some? && reply.None? && final.status in REPORTABLE && Reportable()
      modifies this`disk, this`mem, this`sent, this`run, server
      ensures Valid() && old(run) <= run
      ensures o.Done? ==> mem.None? && disk.None? && Stored(Outgoing(old(mem).value, final))
      ensures !o.Done? && old(Kept(mem.value.assignment)) ==> Kept(old(mem).value.assignment)
    {
      o := ReportOperationEvent(final, network);
      if o.Done? {
        ClearOperationState();
      }
    }

    /** The outcome to report; only the last renewal may still change it. */
    method Conclude(ending: Ending, broke: bool, outcomes: Outcomes, network: seq<Transport>, ghost start: nat)
      returns (final: Event)
      requires Valid() && mem.Some? && reply.None? && !ending.RestartRequired? && outcomes.Valid() && start <= |run|
      modifies this`run, server
      ensures Valid() && old(run) <= run && final.status in REPORTABLE
      ensures Justified(run, final, ending, broke, outcomes, mem.value.assignment, start)
    {
      hide Legal, OperationLog.Inv, OperationLog.Run, Extended;
      var verdict := if broke || (ending.Completed? && ending.leaseLost) then Broke else ending;
      if verdict.Completed? {
        ghost var renewed := |run|;
        var renewal := RenewLease(network);
        verdict := AfterRenewal(verdict, renewal);
        if renewal.Held? {
          ExtendedStays(run, run, mem.value.assignment, renewal.cancelRequested, renewed, start);
        }
      }
      final := outcomes.For(verdict);
    }
  }

  // ----- What the outcome rests on -----

  ghost predicate ExtendedAt(run: seq<World>, i: nat, now: int, a: Assignment, cancel: bool)
    requires 0 < i < |run|
  {
    && OperationLog.Extend(run[i - 1].log, run[i].log, a.operation, a.token, now)
    && run[i].log.ops[a.operation].attempt == a.attempt && run[i].log.ops[a.operation].cancelRequested == cancel
  }

  /** The server extended this very lease since `start`, and told whether to cancel. */
  ghost predicate Extended(run: seq<World>, a: Assignment, cancel: bool, start: nat) {
    exists i: nat, now :: start <= i < |run| && 0 < i && ExtendedAt(run, i, now, a, cancel)
  }

  lemma ExtendedStays(run: seq<World>, longer: seq<World>, a: Assignment, cancel: bool, start: nat, earlier: nat)
    requires run <= longer && earlier <= start && Extended(run, a, cancel, start)
    ensures Extended(longer, a, cancel, earlier)
  {
    var i: nat, now :| start <= i < |run| && 0 < i && ExtendedAt(run, i, now, a, cancel);
    assert ExtendedAt(longer, i, now, a, cancel);
  }

  /** What may be reported as the outcome. A committed result is reported as a success unless
      the monitor lost the lease, in which case it is reported as failed all the same; any
      other success, and a cancellation that comes last, rest on a lease that the server
      extended while this attempt ran. */
  ghost predicate Justified(run: seq<World>, e: Event, ending: Ending, broke: bool, outcomes: Outcomes, a: Assignment, start: nat) {
    if broke then e == outcomes.failed
    else match ending
      case Completed(committed, leaseLost) =>
        if leaseLost then e == outcomes.failed
        else if committed then e == outcomes.succeeded
        else
          || (e == outcomes.succeeded && Extended(run, a, false, start))
          || (e == outcomes.cancelled && Extended(run, a, true, start))
          || e == outcomes.failed
      case Interrupted => e == outcomes.cancelled
      case Broke => e == outcomes.failed
      case RestartRequired => false
  }

  lemma JustifiedStays(run: seq<World>, longer: seq<World>, e: Event, ending: Ending, broke: bool, outcomes: Outcomes,
                       a: Assignment, start: nat)
    requires run <= longer && Justified(run, e, ending, broke, outcomes, a, start)
    ensures Justified(longer, e, ending, broke, outcomes, a, start)
  {
    hide Extended;
    if Extended(run, a, false, start) {
      ExtendedStays(run, longer, a, false, start, start);
    }
    if Extended(run, a, true, start) {
      ExtendedStays(run, longer, a, true, start, start);
    }
  }

  const FAILURE := STARTED.(status := Status.Failed, phase := "failed")
  const SUCCESS := STARTED.(status := Status.Succeeded, phase := "completed")
  const OUTCOMES := Outcomes(SUCCESS, FAILURE, STARTED.(status := Status.Cancelled, phase := "cancelled"))

  /** The executor has committed its result, but the monitor could not renew the lease for a
      while; the lease itself has not run out, so that the server takes the report: the
      operation ends as failed, and nothing else may be reported. */
  lemma CommittedUpdateReportedFailed() returns (run: seq<World>)
    ensures Legal(run)
    ensures var w, a, ending := run[|run| - 1], Assignment("op", 1, "t"), Completed(true, true);
      && "op" in w.log.ops && w.log.ops["op"].status == Status.Failed && w.log.events == map[Slot("op", 1, 1) := FAILURE]
      && (forall e :: Justified(run, e, ending, false, OUTCOMES, a, 0) <==> e == FAILURE)
  {
    run := ReachWorking();
    hide Legal;
    var w4 := OperationOutbox.Working();
    var report := NextReport(w4.mem.value, FAILURE);
    var w5 := w4.(mem := Some(w4.mem.value.(pending := Some(report))));
    assert Enqueue(w4, w5, FAILURE);
    ExtendLegal(run, w5);
    var w6 := w5.(disk := w5.mem);
    assert Save(w5, w6);
    ExtendLegal(run + [w5], w6);
    var w7 := w6.(sent := {report});
    assert Send(w6, w7);
    ExtendLegal(run + [w5] + [w6], w7);
    LastSequenceUnique(w7.log.events, "op", 1, 0);
    assert Judge(w7.log, "n", report, 0).Appended?;
    var w8 := w7.(log := AfterReport(w7.log, "n", report, 0));
    assert Deliver(w7, w8, report, 0);
    ExtendLegal(run + [w5] + [w6] + [w7], w8);
    run := run + [w5] + [w6] + [w7] + [w8];
  }
}
