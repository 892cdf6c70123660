/**
 The server's operation store. Each database statement or transaction is atomic and
 is one rule of `OperationLog`; the ghost `run` records the states in between.
 */
module OperationStore {
  import opened Common
  import opened OperationLog

  datatype CreateResult =
    | Created(id: OperationId)
    | Existing(id: OperationId)
    | IdempotencyConflict
    | NodeBusy
    | Refused

  datatype Assignment = Assignment(operation: OperationId, attempt: nat, token: Token)

  function RequiredCapabilities(kind: string): set<string> {
    match kind
    case "update.agent" =>
      {"operations.v1", "update.agent.v1", "download.streaming.v1", "install.versioned.v1", "restart_resume.agent.v1"}
    case "update.sing_box" =>
      {"operations.v1", "update.sing_box.v1", "download.streaming.v1", "install.versioned.v1", "rollback.sing_box.v1"}
    case "update.bundle" =>
      {"operations.v1", "update.agent.v1", "update.sing_box.v1", "download.streaming.v1", "install.versioned.v1",
       "restart_resume.agent.v1", "rollback.sing_box.v1"}
    case _ => {"operations.v1"}
  }

  /** MAX(sequence) over the rows of one attempt. */
  method LastEventSequence(events: map<Slot, Event>, id: OperationId, attempt: nat) returns (last: nat)
    ensures last == LastSequence(events, id, attempt)
  {
    last := 0;
    var rest := events.Keys;
    while rest != {}
      invariant rest <= events.Keys
      invariant forall slot <- events.Keys - rest :: slot.operation == id && slot.attempt == attempt ==> slot.sequence <= last
      invariant last == 0 || Slot(id, attempt, last) in events
    {
      var slot :| slot in rest;
      if slot.operation == id && slot.attempt == attempt && slot.sequence > last {
        last := slot.sequence;
      }
      rest := rest - {slot};
    }
    LastSequenceUnique(events, id, attempt, last);
  }

  function AfterExpiry(op: Operation, node: NodeId, now: int): Operation {
    if op.node == node && op.status.Queued? && op.request.expiresAt.Some? && op.request.expiresAt.value <= now
    then op.(status := Expired) else op
  }

  ghost predicate Granted(s: Log, a: Assignment, node: NodeId, capabilities: set<string>, now: int) {
    && HoldsLease(s, a.operation, a.token, now) && a.attempt == s.ops[a.operation].attempt
    && s.ops[a.operation].node == node && s.ops[a.operation].request.capabilities <= capabilities
  }

  ghost predicate CanResume(s: Log, node: NodeId, capabilities: set<string>, current: Option<(OperationId, Token)>, now: int) {
    && current.Some? && current.value.1 != "" && HoldsLease(s, current.value.0, current.value.1, now)
    && s.ops[current.value.0].node == node && s.ops[current.value.0].request.capabilities <= capabilities
  }

  /** The transaction that serves a claim, once expired requests are off the queue. */
  ghost predicate Served(s: Log, t: Log, current: Option<(OperationId, Token)>, r: Option<Assignment>, newToken: Token, now: int) {
    match r
    case None => t == s
    case Some(a) =>
      if a.token == newToken then Claim(s, t, a.operation, newToken, now) && a.attempt == s.ops[a.operation].attempt + 1
      else
        && Extend(s, t, a.operation, a.token, now) && a.attempt == s.ops[a.operation].attempt
        && current == Some((a.operation, a.token)) && a.token != ""
  }

  ghost predicate Renewable(s: Log, node: NodeId, id: OperationId, token: Token, attempt: nat, now: int) {
    && id != "" && token != "" && attempt > 0
    && HoldsLease(s, id, token, now) && s.ops[id].node == node && s.ops[id].attempt == attempt
  }

  /** What every request has to be, whatever is stored. */
  predicate Acceptable(key: string, request: Request) {
    && request.kind in {"update.bundle", "update.agent", "update.sing_box", "config.reconcile", "diagnostics.collect", "logs.collect"}
    && 0 < |key| <= 128
    && (request.notBefore.Some? && request.expiresAt.Some? ==> request.notBefore.value < request.expiresAt.value)
  }

  /** The node has an operation under the key. */
  predicate Stored(s: Log, node: NodeId, key: string) {
    exists id <- s.ops :: s.ops[id].node == node && s.ops[id].key == key
  }

  predicate StoredAs(s: Log, node: NodeId, key: string, request: Request) {
    exists id <- s.ops :: s.ops[id].node == node && s.ops[id].key == key && s.ops[id].request == request
  }

  predicate Busy(s: Log, node: NodeId) {
    exists id <- s.ops :: s.ops[id].node == node && (s.ops[id].status == Queued || s.ops[id].status == Running)
  }

  /** Only an operation of the node that has ended can be retried. */
  predicate MayRetry(s: Log, node: NodeId, retryOf: Option<OperationId>) {
    retryOf.Some? ==>
      && retryOf.value in s.ops && s.ops[retryOf.value].node == node
      && s.ops[retryOf.value].status != Queued && s.ops[retryOf.value].status != Running
  }

  lemma KeyIsUnique(s: Log, id: OperationId)
    requires Inv(s) && id in s.ops
    ensures forall o <- s.ops | o != id && s.ops[o].node == s.ops[id].node :: s.ops[o].key != s.ops[id].key
    ensures forall request: Request ::
      StoredAs(s, s.ops[id].node, s.ops[id].key, request) <==> request == s.ops[id].request
  {
    forall o <- s.ops | o != id && s.ops[o].node == s.ops[id].node
      ensures s.ops[o].key != s.ops[id].key
    {
      assert Rivals(s, o, id);
    }
  }

  lemma NothingServed(s: Log, current: Option<(OperationId, Token)>, newToken: Token, now: int)
    ensures Served(s, s, current, None, newToken, now)
  {
  }

  /** May the node's operation get a next attempt now? */
  predicate Waits(op: Operation, node: NodeId, capabilities: set<string>, now: int) {
    && op.node == node && op.request.capabilities <= capabilities && !op.cancelRequested
    && (op.request.notBefore.None? || op.request.notBefore.value <= now)
    && (|| (op.status == Queued && (op.request.expiresAt.None? || op.request.expiresAt.value > now))
        || (op.status == Running && op.leaseExpires <= now))
  }

  lemma WaitsAlone(s: Log, id: OperationId, node: NodeId, capabilities: set<string>, now: int)
    requires Inv(s) && id in s.ops && Waits(s.ops[id], node, capabilities, now)
    ensures Claimable(s.ops[id], now) && s.ops[id].status.Active()
    ensures forall o <- s.ops | o != id && s.ops[o].node == node :: !s.ops[o].status.Active()
  {
    assert WellFormed(s.ops[id]);
    forall o <- s.ops | o != id && s.ops[o].node == node
      ensures !s.ops[o].status.Active()
    {
      assert Rivals(s, id, o);
    }
  }

  lemma ResumableStays(s: Log, t: Log, node: NodeId, capabilities: set<string>, current: Option<(OperationId, Token)>, now: int)
    requires Withdraw(s, t) && CanResume(s, node, capabilities, current, now)
    ensures CanResume(t, node, capabilities, current, now) && t.ops[current.value.0] == s.ops[current.value.0]
  {
  }

  class Store {
    var ops: map<OperationId, Operation>
    var events: map<Slot, Event>
    ghost var issued: set<Token>
    ghost var run: seq<Log>

    ghost function State(): Log
      reads this
    {
      Log(ops, events, issued)
    }

    ghost predicate Valid()
      reads this
    {
      Run(run) && run[|run| - 1] == State() && Inv(State())
    }

    constructor ()
      ensures Valid() && State() == Log(map[], map[], {})
    {
      ops, events, issued, run := map[], map[], {}, [Log(map[], map[], {})];
    }

    /** Record the transaction that led from the last recorded state to this one. */
    ghost method Commit()
      requires Run(run) && Inv(run[|run| - 1]) && Next(run[|run| - 1], State())
      modifies this`run
      ensures Valid() && run == old(run) + [State()]
    {
      NextKeepsInv(run[|run| - 1], State());
      ExtendRun(run, State());
      run := run + [State()];
    }

    /** A request is stored once: asking again with the same key returns the stored
        operation, and a busy node accepts nothing new. */
    method CreateNodeOperation(node: NodeId, key: string, request: Request, newId: OperationId)
      returns (r: CreateResult)
      requires Valid() && newId !in ops
      modifies this
      ensures Valid() && old(run) <= run
      ensures r.Created? <==> State() != old(State())
      ensures r.Created? ==> r.id == newId && Create(old(State()), State(), newId)
      ensures r.Created? || r.Existing? ==>
        && r.id in ops && ops[r.id].node == node && ops[r.id].key == key
        && ops[r.id].request == request.(capabilities := request.capabilities + RequiredCapabilities(request.kind))
      ensures r.Created? ==>
        && newId in ops && ops == old(ops)[newId := ops[newId]] && events == old(events) && issued == old(issued)
        && ops[newId].status == Queued && ops[newId].attempt == 0 && ops[newId].lease.None? && !ops[newId].cancelRequested
      ensures r.Refused? <==> (!Acceptable(key, request)
        || (!Stored(old(State()), node, key) && !Busy(old(State()), node) && !MayRetry(old(State()), node, request.retryOf)))
      ensures r.NodeBusy? <==> (Acceptable(key, request) && !Stored(old(State()), node, key) && Busy(old(State()), node))
      ensures r.Existing? <==> (Acceptable(key, request) && StoredAs(old(State()), node, key,
        request.(capabilities := request.capabilities + RequiredCapabilities(request.kind))))
      ensures r.IdempotencyConflict? <==> (Acceptable(key, request) && Stored(old(State()), node, key)
        && !StoredAs(old(State()), node, key, request.(capabilities := request.capabilities + RequiredCapabilities(request.kind))))
    {
      hide Run, Inv;
      if request.kind !in OPERATION_KINDS || key == "" || |key| > 128 {
        return Refused;
      }
      if request.notBefore.Some? && request.expiresAt.Some? && request.expiresAt.value <= request.notBefore.value {
        return Refused;
      }
      var full := request.(capabilities := request.capabilities + RequiredCapabilities(request.kind));
      if id :| id in ops && ops[id].node == node && ops[id].key == key {
        KeyIsUnique(State(), id);
        hide StoredAs;
        return if ops[id].request == full then Existing(id) else IdempotencyConflict;
      }
      assert !Stored(State(), node, key);
      assert !StoredAs(State(), node, key, full);
      hide Stored, StoredAs;
      if id :| id in ops && ops[id].node == node && ops[id].status.Active() {
        return NodeBusy;
      }
      if request.retryOf.Some? {
        if request.retryOf.value !in ops {
          return Refused;
        }
        var previous := ops[request.retryOf.value];
        if previous.node != node || previous.status.Active() {
          return Refused;
        }
      }
      ops := ops[newId := Operation(node, key, full, Queued, 0, None, 0, false)];
      assert Create(old(State()), State(), newId);
      Commit();
      return Created(newId);
    }

    method ExpireQueued(node: NodeId, now: int)
      requires Valid()
      modifies this
      ensures Valid() && old(run) <= run
      ensures issued == old(issued) && events == old(events) && ops.Keys == old(ops.Keys) && Withdraw(old(State()), State())
      ensures forall id <- ops :: ops[id] == AfterExpiry(old(ops)[id], node, now)
      ensures forall id <- ops ::
        if old(ops)[id].node == node && old(ops)[id].status == Queued
          && old(ops)[id].request.expiresAt.Some? && old(ops)[id].request.expiresAt.value <= now
        then ops[id] == old(ops)[id].(status := Expired) else ops[id] == old(ops)[id]
    {
      ops := map id <- ops :: AfterExpiry(ops[id], node, now);
      assert Withdraw(old(State()), State());
      Commit();
    }

    /** Resume the lease the node still holds, or hand out the next attempt; an operation that
        waits for one is never passed over. */
    method ClaimNodeOperation(node: NodeId, capabilities: set<string>, current: Option<(OperationId, Token)>,
                              newToken: Token, now: int)
      returns (r: Option<Assignment>, ghost expired: Log)
      requires Valid() && newToken !in issued && newToken != ""
      modifies this
      ensures Valid() && old(run) <= run && events == old(events)
      ensures Withdraw(old(State()), expired) && Served(expired, State(), current, r, newToken, now)
      ensures r.Some? ==> Granted(State(), r.value, node, capabilities, now)
      ensures CanResume(old(State()), node, capabilities, current, now) ==>
        && r == Some(Assignment(current.value.0, old(ops)[current.value.0].attempt, current.value.1))
        && current.value.0 in ops && ops[current.value.0] == old(ops)[current.value.0].(leaseExpires := now + 90)
      ensures forall id <- old(ops) | Waits(old(ops)[id], node, capabilities, now) ::
        r == Some(Assignment(id, old(ops)[id].attempt + 1, newToken)) && id in ops && ops[id] == old(ops)[id].(
          status := Running, attempt := old(ops)[id].attempt + 1, lease := Some(newToken), leaseExpires := now + 90)
    {
      hide Run, Inv, HoldsLease, Claimable;
      ExpireQueued(node, now);
      expired := State();
      if CanResume(old(State()), node, capabilities, current, now) {
        ResumableStays(old(State()), expired, node, capabilities, current, now);
      }
      hide Withdraw, Served;
      r := ServeNode(node, capabilities, current, newToken, now);
    }

    /** The node's active operation, if it has one, is served. */
    method ServeNode(node: NodeId, capabilities: set<string>, current: Option<(OperationId, Token)>, newToken: Token, now: int)
      returns (r: Option<Assignment>)
      requires Valid() && newToken !in issued && newToken != ""
      modifies this
      ensures Valid() && old(run) <= run && events == old(events)
      ensures Served(old(State()), State(), current, r, newToken, now)
      ensures r.Some? ==> Granted(State(), r.value, node, capabilities, now)
      ensures CanResume(old(State()), node, capabilities, current, now) ==>
        && r == Some(Assignment(current.value.0, old(ops)[current.value.0].attempt, current.value.1))
        && current.value.0 in ops && ops[current.value.0] == old(ops)[current.value.0].(leaseExpires := now + 90)
      ensures forall id <- old(ops) | Waits(old(ops)[id], node, capabilities, now) ::
        r == Some(Assignment(id, old(ops)[id].attempt + 1, newToken)) && id in ops && ops[id] == old(ops)[id].(
          status := Running, attempt := old(ops)[id].attempt + 1, lease := Some(newToken), leaseExpires := now + 90)
    {
      hide Run;
      forall id <- ops | Waits(ops[id], node, capabilities, now)
        ensures Claimable(ops[id], now) && ops[id].status.Active()
        ensures forall o <- ops | o != id && ops[o].node == node :: !ops[o].status.Active()
      {
        WaitsAlone(State(), id, node, capabilities, now);
      }
      if CanResume(State(), node, capabilities, current, now) {
        assert forall id <- ops :: id != current.value.0 && ops[id].node == node && ops[id].status.Active() ==>
          Rivals(State(), id, current.value.0);
      }
      hide Inv, Served, Claimable;
      r := None;
      assert Served(State(), State(), current, None, newToken, now) by { NothingServed(State(), current, newToken, now); }
      if id :| id in ops && ops[id].node == node && ops[id].status.Active() {
        if ops[id].request.capabilities <= capabilities {
          r := ServeOperation(id, current, newToken, now);
        }
      }
    }

    /** Resumes the lease the agent still holds, or grants the next attempt. */
    method ServeOperation(id: OperationId, current: Option<(OperationId, Token)>, newToken: Token, now: int)
      returns (r: Option<Assignment>)
      requires Valid() && id in ops && newToken !in issued && newToken != ""
      modifies this
      ensures Valid() && old(run) <= run && events == old(events)
      ensures Served(old(State()), State(), current, r, newToken, now)
      ensures r.Some? ==> Granted(State(), r.value, old(ops)[id].node, old(ops)[id].request.capabilities, now)
      ensures current.Some? && current.value.0 == id && current.value.1 != ""
        && HoldsLease(old(State()), id, current.value.1, now)
        ==> && r == Some(Assignment(id, old(ops)[id].attempt, current.value.1))
            && ops == old(ops)[id := old(ops)[id].(leaseExpires := now + 90)]
      ensures Claimable(old(ops)[id], now) ==>
        && r == Some(Assignment(id, old(ops)[id].attempt + 1, newToken))
        && ops == old(ops)[id := old(ops)[id].(
          status := Running, attempt := old(ops)[id].attempt + 1, lease := Some(newToken), leaseExpires := now + 90)]
    {
      hide Run;
      var resumed := ResumeLease(id, current, now);
      if resumed {
        return Some(Assignment(id, ops[id].attempt, current.value.1));
      }
      var claimed := NextAttempt(id, newToken, now);
      r := if claimed then Some(Assignment(id, ops[id].attempt, newToken)) else None;
    }

    method ResumeLease(id: OperationId, current: Option<(OperationId, Token)>, now: int) returns (resumed: bool)
      requires Valid() && id in ops
      modifies this
      ensures Valid() && old(run) <= run
      ensures resumed <==> current.Some? && current.value.0 == id && current.value.1 != "" && HoldsLease(old(State()), id, current.value.1, now)
      ensures resumed ==> Extend(old(State()), State(), id, current.value.1, now)
      ensures !resumed ==> State() == old(State())
    {
      if current.None? || current.value.0 != id || current.value.1 == "" || !ops[id].status.Running?
         || ops[id].lease != Some(current.value.1) || ops[id].leaseExpires <= now {
        return false;
      }
      ops := ops[id := ops[id].(leaseExpires := now + LEASE_SECONDS)];
      assert Extend(old(State()), State(), id, current.value.1, now);
      Commit();
      return true;
    }

    method NextAttempt(id: OperationId, token: Token, now: int) returns (claimed: bool)
      requires Valid() && id in ops && token !in issued
      modifies this
      ensures Valid() && old(run) <= run
      ensures claimed <==> Claimable(old(ops)[id], now)
      ensures claimed ==> Claim(old(State()), State(), id, token, now)
      ensures !claimed ==> State() == old(State())
    {
      if !Claimable(ops[id], now) {
        return false;
      }
      ops := ops[id := ops[id].(status := Running, attempt := ops[id].attempt + 1,
                                lease := Some(token), leaseExpires := now + LEASE_SECONDS)];
      issued := issued + {token};
      assert Claim(old(State()), State(), id, token, now);
      Commit();
      return true;
    }

    method RenewLease(node: NodeId, id: OperationId, token: Token, attempt: nat, now: int) returns (cancel: Option<bool>)
      requires Valid()
      modifies this
      ensures Valid() && old(run) <= run
      ensures cancel.Some? <==> Renewable(old(State()), node, id, token, attempt, now)
      ensures cancel.Some? ==> Extend(old(State()), State(), id, token, now) && cancel.value == ops[id].cancelRequested
      ensures cancel.Some? ==> id in old(ops) && ops == old(ops)[id := old(ops)[id].(leaseExpires := now + 90)]
      ensures cancel.None? ==> State() == old(State())
    {
      if id == "" || token == "" || attempt == 0 || id !in ops || ops[id].node != node || !ops[id].status.Running?
         || ops[id].lease != Some(token) || ops[id].attempt != attempt || ops[id].leaseExpires <= now {
        return None;
      }
      ops := ops[id := ops[id].(leaseExpires := now + LEASE_SECONDS)];
      assert Extend(old(State()), State(), id, token, now);
      Commit();
      return Some(ops[id].cancelRequested);
    }

    method RequestCancel(id: OperationId) returns (found: bool)
      requires Valid()
      modifies this
      ensures Valid() && old(run) <= run
      ensures found == (id in old(ops) && old(ops)[id].status.Active())
      ensures State() == if !found then old(State()) else old(State()).(ops := old(ops)[id :=
        old(ops)[id].(cancelRequested := true, status := if old(ops)[id].status.Queued? then Cancelled else Running)])
    {
      if id !in ops || !ops[id].status.Active() {
        return false;
      }
      ghost var queued := ops[id].status.Queued?;
      ops := ops[id := ops[id].(cancelRequested := true, status := if ops[id].status.Queued? then Cancelled else ops[id].status)];
      if queued {
        assert Withdraw(old(State()), State());
      } else {
        assert OperationLog.RequestCancel(old(State()), State(), id);
      }
      Commit();
      return true;
    }

    method CancelUnclaimed(id: OperationId)
      requires Valid()
      modifies this
      ensures Valid() && old(run) <= run
      ensures State() == if id in old(ops) && old(ops)[id].status.Queued?
        then old(State()).(ops := old(ops)[id := old(ops)[id].(status := Cancelled, cancelRequested := true)])
        else old(State())
    {
      if id in ops && ops[id].status.Queued? {
        ops := ops[id := ops[id].(status := Cancelled, cancelRequested := true)];
        assert Withdraw(old(State()), State());
        Commit();
      }
    }

    method RecordNodeOperationEvent(node: NodeId, report: Report, now: int) returns (v: Verdict)
      requires Valid() && report.event.status in REPORTABLE
      modifies this
      ensures Valid() && old(run) <= run
      ensures v == Judge(old(State()), node, report, now)
      ensures State() == AfterReport(old(State()), node, report, now)
      ensures v != Appended ==> State() == old(State())
      ensures v == Appended ==>
        && report.slot.operation in old(ops) && report.slot.operation in ops && issued == old(issued)
        && events == old(events)[report.slot := report.event] && ops == old(ops)[report.slot.operation := ops[report.slot.operation]]
        && var before, after := old(ops)[report.slot.operation], ops[report.slot.operation];
        && after.status == report.event.status
        && after.lease == (if report.event.status == Running then before.lease else None)
        && after.leaseExpires == (if report.event.status == Running then now + 90 else before.leaseExpires)
        && after == before.(status := after.status, lease := after.lease, leaseExpires := after.leaseExpires)
    {
      hide Run, Inv;
      var slot := report.slot;
      if slot.attempt == 0 || slot.sequence == 0 || report.token == "" {
        return LeaseInvalid;
      }
      if slot.operation !in ops {
        return NoOperation;
      }
      var current := ops[slot.operation];
      if current.node != node {
        return LeaseInvalid;
      }
      if slot in events {
        return if events[slot] == report.event then Replayed else SequenceReused;
      }
      if !current.status.Running? || current.attempt != slot.attempt || current.lease != Some(report.token) {
        return LeaseInvalid;
      }
      if report.event.status.Cancelled? && !current.cancelRequested {
        return CancelNotRequested;
      }
      var last := LastEventSequence(events, slot.operation, slot.attempt);
      if slot.sequence <= last {
        return SequenceExists;
      }
      if slot.sequence != last + 1 {
        return SequenceGap;
      }
      if current.leaseExpires <= now {
        return LeaseInvalid; // the transaction rolls the appended event back
      }
      JudgeIsSound(State(), node, report, now);
      events := events[slot := report.event];
      ops := ops[slot.operation := AfterEvent(current, report.event, now)];
      Commit();
      return Appended;
    }
  }
}
