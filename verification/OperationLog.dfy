/**
 The server half of the node-operation protocol: operations, leases and the event
 log. Every transaction is one rule; the methods of `OperationStore` perform them.
 Times are readings of a clock; hashes of lease tokens are the tokens themselves.
 */
module OperationLog {
  import opened Common

  type OperationId = string
  type NodeId = string
  type Token = string

  datatype Status = Queued | Running | Succeeded | Failed | Cancelled | Expired
  {
    predicate Active() { Queued? || Running? }
  }

  /** What a request asks for; an idempotency key stands for exactly one request. */
  datatype Request = Request(
    kind: string,
    payload: string,
    capabilities: set<string>,
    notBefore: Option<int>,
    expiresAt: Option<int>,
    retryOf: Option<OperationId>)

  datatype Operation = Operation(
    node: NodeId,
    key: string,
    request: Request,
    status: Status,
    attempt: nat,
    lease: Option<Token>,
    leaseExpires: int,
    cancelRequested: bool)

  /** The content of an event report that an exact replay has to repeat. */
  datatype Event = Event(status: Status, phase: string, message: string, details: string, result: string, error: string)

  datatype Slot = Slot(operation: OperationId, attempt: nat, sequence: nat)

  /** The tables, and the lease tokens handed out so far. */
  datatype Log = Log(ops: map<OperationId, Operation>, events: map<Slot, Event>, issued: set<Token>)

  const LEASE_SECONDS := 90

  const OPERATION_KINDS := {"update.bundle", "update.agent", "update.sing_box",
                            "config.reconcile", "diagnostics.collect", "logs.collect"}

  const REPORTABLE := {Status.Running, Status.Succeeded, Status.Failed, Status.Cancelled}

  // ----- Transactions -----

  ghost predicate Create(s: Log, t: Log, id: OperationId) {
    && id !in s.ops && id in t.ops
    && t.ops[id].status.Queued? && t.ops[id].attempt == 0 && t.ops[id].lease.None? && !t.ops[id].cancelRequested
    && (forall o <- s.ops :: s.ops[o].node == t.ops[id].node ==>
          !s.ops[o].status.Active() && s.ops[o].key != t.ops[id].key)
    && t == s.(ops := s.ops[id := t.ops[id]])
  }

  /** Statuses that leave the queue without ever running. */
  ghost predicate Withdraw(s: Log, t: Log) {
    && t.ops.Keys == s.ops.Keys && t == s.(ops := t.ops)
    && forall o <- s.ops :: t.ops[o] == s.ops[o] ||
         (s.ops[o].status.Queued? && t.ops[o].status in {Expired, Cancelled}
          && t.ops[o] == s.ops[o].(status := t.ops[o].status, cancelRequested := t.ops[o].cancelRequested))
  }

  ghost predicate RequestCancel(s: Log, t: Log, id: OperationId) {
    id in s.ops && s.ops[id].status.Running? && t == s.(ops := s.ops[id := s.ops[id].(cancelRequested := true)])
  }

  predicate Claimable(op: Operation, now: int) {
    && !op.cancelRequested
    && (op.request.notBefore.Some? ==> op.request.notBefore.value <= now)
    && (if op.status.Queued? then op.request.expiresAt.Some? ==> op.request.expiresAt.value > now
        else op.status.Running? && op.lease.Some? && op.leaseExpires <= now)
  }

  ghost predicate Claim(s: Log, t: Log, id: OperationId, token: Token, now: int) {
    && id in s.ops && Claimable(s.ops[id], now) && token !in s.issued
    && t == s.(issued := s.issued + {token},
               ops := s.ops[id := s.ops[id].(status := Running, attempt := s.ops[id].attempt + 1,
                                             lease := Some(token), leaseExpires := now + LEASE_SECONDS)])
  }

  predicate HoldsLease(s: Log, id: OperationId, token: Token, now: int) {
    id in s.ops && s.ops[id].status.Running? && s.ops[id].lease == Some(token) && s.ops[id].leaseExpires > now
  }

  ghost predicate Extend(s: Log, t: Log, id: OperationId, token: Token, now: int) {
    && HoldsLease(s, id, token, now)
    && t == s.(ops := s.ops[id := s.ops[id].(leaseExpires := now + LEASE_SECONDS)])
  }

  ghost predicate Append(s: Log, t: Log, slot: Slot, token: Token, event: Event, now: int) {
    && HoldsLease(s, slot.operation, token, now)
    && s.ops[slot.operation].attempt == slot.attempt
    && event.status in REPORTABLE
    && (event.status.Cancelled? ==> s.ops[slot.operation].cancelRequested)
    && slot !in s.events && slot.sequence == LastSequence(s.events, slot.operation, slot.attempt) + 1
    && t == s.(events := s.events[slot := event],
               ops := s.ops[slot.operation := AfterEvent(s.ops[slot.operation], event, now)])
  }

  function AfterEvent(op: Operation, event: Event, now: int): Operation {
    op.(status := event.status,
        lease := if event.status.Running? then op.lease else None,
        leaseExpires := if event.status.Running? then now + LEASE_SECONDS else op.leaseExpires)
  }

  ghost predicate Next(s: Log, t: Log) {
    || s == t
    || (exists id :: Create(s, t, id))
    || Withdraw(s, t)
    || (exists id :: RequestCancel(s, t, id))
    || (exists id, token, now :: Claim(s, t, id, token, now))
    || (exists id, token, now :: Extend(s, t, id, token, now))
    || (exists slot, token, event, now :: Append(s, t, slot, token, event, now))
  }

  // ----- Sequences of one attempt -----

  /** MAX(sequence), or 0 when the attempt has no event. */
  ghost function LastSequence(events: map<Slot, Event>, id: OperationId, attempt: nat): (n: nat)
    ensures forall slot <- events :: slot.operation == id && slot.attempt == attempt ==> slot.sequence <= n
    ensures n == 0 || Slot(id, attempt, n) in events
  {
    var keys := set slot <- events | slot.operation == id && slot.attempt == attempt;
    MaxSequence(keys)
  }

  ghost function MaxSequence(slots: set<Slot>): (n: nat)
    ensures forall slot <- slots :: slot.sequence <= n
    ensures n == 0 || exists slot <- slots :: slot.sequence == n
  {
    if slots == {} then 0
    else
      var slot :| slot in slots;
      var rest := MaxSequence(slots - {slot});
      if slot.sequence > rest then slot.sequence else rest
  }

  lemma LastSequenceUnique(events: map<Slot, Event>, id: OperationId, attempt: nat, n: nat)
    requires forall slot <- events :: slot.operation == id && slot.attempt == attempt ==> slot.sequence <= n
    requires n == 0 || Slot(id, attempt, n) in events
    ensures LastSequence(events, id, attempt) == n
  {
    assert n == 0 || Slot(id, attempt, n).sequence <= LastSequence(events, id, attempt);
  }

  // ----- Invariant -----

  /** Sequences of an attempt start at one and leave no gap. */
  ghost predicate Gapless(s: Log) {
    && (forall slot <- s.events ::
          slot.operation in s.ops && 1 <= slot.attempt <= s.ops[slot.operation].attempt && 1 <= slot.sequence)
    && forall id, attempt, n, k :: Slot(id, attempt, n) in s.events && 1 <= k <= n ==> Slot(id, attempt, k) in s.events
  }

  ghost predicate Rivals(s: Log, a: OperationId, b: OperationId)
    requires a in s.ops && b in s.ops
  {
    a != b && s.ops[a].node == s.ops[b].node
  }

  /** A node has one active operation, and one operation per idempotency key. */
  ghost predicate OneActive(s: Log) {
    forall a <- s.ops, b <- s.ops :: Rivals(s, a, b) ==>
      s.ops[a].key != s.ops[b].key && !(s.ops[a].status.Active() && s.ops[b].status.Active())
  }

  ghost predicate WellFormed(op: Operation) {
    && (op.lease.Some? <==> op.status.Running?)
    && (op.status.Running? ==> op.attempt > 0)
    && (op.status.Queued? ==> op.attempt == 0)
  }

  /** A lease belongs to one running operation and was handed out by a claim. */
  ghost predicate Leases(s: Log) {
    && (forall id <- s.ops :: WellFormed(s.ops[id]) && (s.ops[id].lease.Some? ==> s.ops[id].lease.value in s.issued))
    && forall a <- s.ops, b <- s.ops :: s.ops[a].lease.Some? && s.ops[a].lease == s.ops[b].lease ==> a == b
  }

  ghost predicate Inv(s: Log) {
    Gapless(s) && OneActive(s) && Leases(s)
  }

  lemma CreateKeepsInv(s: Log, t: Log, id: OperationId)
    requires Inv(s) && Create(s, t, id)
    ensures Inv(t)
  {
    forall a <- t.ops, b <- t.ops | Rivals(t, a, b)
      ensures t.ops[a].key != t.ops[b].key && !(t.ops[a].status.Active() && t.ops[b].status.Active())
    {
      if a != id && b != id {
        assert Rivals(s, a, b);
      }
    }
  }

  /** Every rule but `Create` and `Append` keeps the events and each operation's identity. */
  lemma UpdateKeepsInv(s: Log, t: Log, id: OperationId)
    requires Inv(s) && id in s.ops && id in t.ops && t.events == s.events && s.issued <= t.issued
    requires t.ops == s.ops[id := t.ops[id]] && WellFormed(t.ops[id])
    requires var a, b := s.ops[id], t.ops[id];
      && b.node == a.node && b.key == a.key && b.attempt >= a.attempt && (b.status.Active() ==> a.status.Active())
      && (b.lease.None? || b.lease == a.lease || (b.lease.value !in s.issued && b.lease.value in t.issued))
    ensures Inv(t)
  {
    forall a <- t.ops, b <- t.ops | Rivals(t, a, b)
      ensures t.ops[a].key != t.ops[b].key && !(t.ops[a].status.Active() && t.ops[b].status.Active())
    {
      assert Rivals(s, a, b);
    }
  }

  lemma WithdrawKeepsInv(s: Log, t: Log)
    requires Inv(s) && Withdraw(s, t)
    ensures Inv(t)
  {
    forall a <- t.ops, b <- t.ops | Rivals(t, a, b)
      ensures t.ops[a].key != t.ops[b].key && !(t.ops[a].status.Active() && t.ops[b].status.Active())
    {
      assert Rivals(s, a, b);
    }
  }

  lemma AppendIsGapless(s: Log, t: Log, slot: Slot, event: Event)
    requires Gapless(s) && slot !in s.events && t.events == s.events[slot := event]
    requires slot.sequence == LastSequence(s.events, slot.operation, slot.attempt) + 1
    requires t.ops.Keys == s.ops.Keys && slot.operation in s.ops && 1 <= slot.attempt <= s.ops[slot.operation].attempt
    requires forall id <- s.ops :: s.ops[id].attempt == t.ops[id].attempt
    ensures Gapless(t)
  {
    var last := LastSequence(s.events, slot.operation, slot.attempt);
    assert last == 0 || Slot(slot.operation, slot.attempt, last) in s.events;
    forall id, attempt: nat, n: nat, k: nat | Slot(id, attempt, n) in t.events && 1 <= k <= n
      ensures Slot(id, attempt, k) in t.events
    {
      if Slot(id, attempt, n) == slot && k < n {
        assert Slot(id, attempt, last) in s.events;
      }
    }
  }

  lemma AppendKeepsInv(s: Log, t: Log, slot: Slot, token: Token, event: Event, now: int)
    requires Inv(s) && Append(s, t, slot, token, event, now)
    ensures Inv(t)
  {
    var op := s.ops[slot.operation];
    assert WellFormed(op);
    AppendIsGapless(s, t, slot, event);
    var mid := s.(ops := s.ops[slot.operation := AfterEvent(op, event, now)]);
    UpdateKeepsInv(s, mid, slot.operation);
    SameOperations(mid, t);
  }

  lemma SameOperations(s: Log, t: Log)
    requires OneActive(s) && Leases(s) && t.ops == s.ops && t.issued == s.issued
    ensures OneActive(t) && Leases(t)
  {
  }

  lemma NextKeepsInv(s: Log, t: Log)
    requires Inv(s) && Next(s, t)
    ensures Inv(t)
  {
    if id :| Create(s, t, id) {
      CreateKeepsInv(s, t, id);
    } else if Withdraw(s, t) {
      WithdrawKeepsInv(s, t);
    } else if id :| RequestCancel(s, t, id) {
      UpdateKeepsInv(s, t, id);
    } else if id, token, now :| Claim(s, t, id, token, now) {
      UpdateKeepsInv(s, t, id);
    } else if id, token, now :| Extend(s, t, id, token, now) {
      UpdateKeepsInv(s, t, id);
    } else if slot, token, event, now :| Append(s, t, slot, token, event, now) {
      AppendKeepsInv(s, t, slot, token, event, now);
    }
  }

  /** The stored sequences of an attempt are exactly 1..n, n being the MAX query. */
  lemma SequencesAreGapless(s: Log, id: OperationId, attempt: nat, k: nat)
    requires Gapless(s)
    ensures Slot(id, attempt, k) in s.events <==> 1 <= k <= LastSequence(s.events, id, attempt)
  {
    var last := LastSequence(s.events, id, attempt);
    assert last == 0 || Slot(id, attempt, last) in s.events;
  }

  // ----- Whole runs -----

  ghost predicate Run(run: seq<Log>) {
    && run != [] && run[0] == Log(map[], map[], {})
    && forall i :: 0 < i < |run| ==> Next(run[i - 1], run[i])
  }

  lemma {:induction false} RunInv(run: seq<Log>, n: nat)
    requires Run(run) && n < |run|
    ensures Inv(run[n])
  {
    if n > 0 {
      RunInv(run, n - 1);
      NextKeepsInv(run[n - 1], run[n]);
    }
  }

  // ----- What the last event says -----

  /** An operation whose current attempt has events has the status of the last of them. */
  ghost predicate StatusIsLast(s: Log, id: OperationId)
    requires id in s.ops
  {
    var last := LastSequence(s.events, id, s.ops[id].attempt);
    last > 0 ==> s.ops[id].status == s.events[Slot(id, s.ops[id].attempt, last)].status
  }

  ghost predicate StatusesAreLast(s: Log) {
    forall id <- s.ops :: StatusIsLast(s, id)
  }

  lemma NoEventsYet(s: Log, id: OperationId, attempt: nat)
    requires Gapless(s) && (id !in s.ops || attempt == 0 || attempt > s.ops[id].attempt)
    ensures LastSequence(s.events, id, attempt) == 0
  {
    var last := LastSequence(s.events, id, attempt);
    assert last > 0 ==> Slot(id, attempt, last) in s.events;
  }

  lemma AppendIsLast(s: Log, t: Log, slot: Slot, token: Token, event: Event, now: int)
    requires StatusesAreLast(s) && Append(s, t, slot, token, event, now)
    ensures StatusesAreLast(t)
  {
    forall id <- t.ops
      ensures StatusIsLast(t, id)
    {
      var attempt := t.ops[id].attempt;
      if id == slot.operation {
        LastSequenceUnique(t.events, id, attempt, slot.sequence);
      } else {
        assert StatusIsLast(s, id);
        LastSequenceUnique(t.events, id, attempt, LastSequence(s.events, id, attempt));
      }
    }
  }

  /** A status changes only by an event, or where the attempt has none. */
  ghost predicate NewOrSame(s: Log, t: Log, id: OperationId)
    requires id in t.ops
  {
    || id !in s.ops || t.ops[id].attempt == 0 || t.ops[id].attempt > s.ops[id].attempt
    || (t.ops[id].attempt == s.ops[id].attempt && t.ops[id].status == s.ops[id].status)
  }

  lemma OthersAreNewOrSame(s: Log, t: Log)
    requires Inv(s) && Next(s, t) && !exists slot, token, event, now :: Append(s, t, slot, token, event, now)
    ensures t.events == s.events && forall id <- t.ops :: NewOrSame(s, t, id)
  {
    hide Gapless, OneActive;
    forall id <- t.ops
      ensures NewOrSame(s, t, id)
    {
      if id in s.ops {
        assert WellFormed(s.ops[id]);
      }
    }
  }

  lemma NextIsLast(s: Log, t: Log)
    requires Inv(s) && StatusesAreLast(s) && Next(s, t)
    ensures StatusesAreLast(t)
  {
    hide Append, Next;
    if slot, token, event, now :| Append(s, t, slot, token, event, now) {
      AppendIsLast(s, t, slot, token, event, now);
    } else {
      OthersAreNewOrSame(s, t);
      forall id <- t.ops
        ensures StatusIsLast(t, id)
      {
        assert NewOrSame(s, t, id);
        if id in s.ops && t.ops[id].attempt == s.ops[id].attempt && t.ops[id].status == s.ops[id].status {
          assert StatusIsLast(s, id);
        } else {
          NoEventsYet(s, id, t.ops[id].attempt);
        }
      }
    }
  }

  /** In every run: an operation whose current attempt has events has the status of the last
      one, so that what was reported last is what the operation shows. */
  lemma {:induction false} LastEventIsTheStatus(run: seq<Log>, n: nat)
    requires Run(run) && n < |run|
    ensures forall id <- run[n].ops ::
      var attempt := run[n].ops[id].attempt;
      var last := LastSequence(run[n].events, id, attempt);
      last > 0 ==> run[n].ops[id].status == run[n].events[Slot(id, attempt, last)].status
  {
    StatusesStayLast(run, n);
    forall id <- run[n].ops
      ensures StatusIsLast(run[n], id)
    {
    }
  }

  lemma {:induction false} StatusesStayLast(run: seq<Log>, n: nat)
    requires Run(run) && n < |run|
    ensures StatusesAreLast(run[n])
  {
    if n > 0 {
      hide Inv, Next, StatusesAreLast;
      StatusesStayLast(run, n - 1);
      RunInv(run, n - 1);
      NextIsLast(run[n - 1], run[n]);
    }
  }

  /** A later version of an operation: a terminal one is final, and within an attempt
      the lease token can only be dropped. */
  ghost predicate LaterOperation(a: Operation, b: Operation) {
    && a.node == b.node && a.key == b.key && a.request == b.request && a.attempt <= b.attempt
    && (!a.status.Active() ==> b == a)
    && (a.attempt == b.attempt && b.lease.Some? ==> a.lease == b.lease)
  }

  /** May an event still be added at this attempt? */
  predicate Open(op: Operation, attempt: nat) {
    op.status.Active() && op.attempt <= attempt
  }

  predicate Closed(op: Operation, attempt: nat) {
    !op.status.Active() || attempt != op.attempt
  }

  /** History is only appended to, and only at the newest attempt of an active operation. */
  ghost predicate Later(s: Log, t: Log) {
    && s.ops.Keys <= t.ops.Keys && s.events.Keys <= t.events.Keys && s.issued <= t.issued
    && (forall id <- s.ops :: LaterOperation(s.ops[id], t.ops[id]))
    && (forall id <- s.ops :: s.ops[id].attempt < t.ops[id].attempt && t.ops[id].lease.Some? ==>
          t.ops[id].lease.value !in s.issued)
    && (forall slot <- s.events :: t.events[slot] == s.events[slot])
    && forall slot <- t.events :: slot in s.events || slot.operation !in s.ops || Open(s.ops[slot.operation], slot.attempt)
  }

  lemma UpdateIsLater(s: Log, t: Log, id: OperationId)
    requires id in s.ops && id in t.ops && t.events == s.events && s.issued <= t.issued
    requires t.ops == s.ops[id := t.ops[id]] && LaterOperation(s.ops[id], t.ops[id])
    requires s.ops[id].attempt < t.ops[id].attempt && t.ops[id].lease.Some? ==> t.ops[id].lease.value !in s.issued
    ensures Later(s, t)
  {
  }

  lemma AppendIsLater(s: Log, t: Log, slot: Slot, token: Token, event: Event, now: int)
    requires Append(s, t, slot, token, event, now)
    ensures Later(s, t)
  {
    assert LaterOperation(s.ops[slot.operation], t.ops[slot.operation]);
  }

  lemma NextIsLater(s: Log, t: Log)
    requires Inv(s) && Next(s, t)
    ensures Later(s, t)
  {
    if id :| Create(s, t, id) {
    } else if Withdraw(s, t) {
    } else if id :| RequestCancel(s, t, id) {
      UpdateIsLater(s, t, id);
    } else if id, token, now :| Claim(s, t, id, token, now) {
      UpdateIsLater(s, t, id);
    } else if id, token, now :| Extend(s, t, id, token, now) {
      UpdateIsLater(s, t, id);
    } else if slot, token, event, now :| Append(s, t, slot, token, event, now) {
      AppendIsLater(s, t, slot, token, event, now);
    }
  }

  lemma LaterTransitive(s: Log, t: Log, u: Log)
    requires Later(s, t) && Later(t, u) && Leases(s) && Leases(t)
    ensures Later(s, u)
  {
    forall id <- s.ops
      ensures LaterOperation(s.ops[id], u.ops[id])
      ensures s.ops[id].attempt < u.ops[id].attempt && u.ops[id].lease.Some? ==> u.ops[id].lease.value !in s.issued
    {
      assert LaterOperation(s.ops[id], t.ops[id]) && LaterOperation(t.ops[id], u.ops[id]);
      assert WellFormed(s.ops[id]) && WellFormed(t.ops[id]);
    }
    forall slot <- u.events
      ensures slot in s.events || slot.operation !in s.ops || Open(s.ops[slot.operation], slot.attempt)
    {
      if slot.operation in s.ops {
        assert LaterOperation(s.ops[slot.operation], t.ops[slot.operation]);
      }
    }
  }

  lemma RunStep(run: seq<Log>, i: nat, j: nat)
    requires Run(run) && i < |run| && 0 < j < |run|
    ensures Leases(run[i]) && Leases(run[j - 1]) && Later(run[j - 1], run[j])
  {
    RunInv(run, i);
    RunInv(run, j - 1);
    NextIsLater(run[j - 1], run[j]);
  }

  /** Over every run: once a later attempt is claimed, or the operation is terminal,
      no event is ever added to the earlier attempt, and stored events never change. */
  lemma {:induction false} HistoryIsFinal(run: seq<Log>, i: nat, j: nat)
    requires Run(run) && i <= j < |run|
    ensures Later(run[i], run[j])
    decreases j
  {
    if i < j {
      HistoryIsFinal(run, i, j - 1);
      RunStep(run, i, j);
      LaterTransitive(run[i], run[j - 1], run[j]);
    }
  }

  lemma ExtendRun(run: seq<Log>, next: Log)
    requires Run(run) && Next(run[|run| - 1], next)
    ensures Run(run + [next])
  {
    var longer := run + [next];
    forall i | 0 < i < |longer|
      ensures Next(longer[i - 1], longer[i])
    {
      if i < |run| {
        assert longer[i - 1] == run[i - 1] && longer[i] == run[i];
      }
    }
  }

  // ----- Event reports -----

  datatype Report = Report(slot: Slot, token: Token, event: Event)

  datatype Verdict =
    | Appended
    | Replayed
    | NoOperation
    | LeaseInvalid
    | CancelNotRequested
    | SequenceExists
    | SequenceGap
    | SequenceReused

  /** The answer to a report, in the order the server checks. */
  ghost function Judge(s: Log, node: NodeId, r: Report, now: int): Verdict {
    var slot := r.slot;
    if slot.attempt == 0 || slot.sequence == 0 || r.token == "" then LeaseInvalid
    else if slot.operation !in s.ops then NoOperation
    else
      var op := s.ops[slot.operation];
      var last := LastSequence(s.events, slot.operation, slot.attempt);
      if op.node != node then LeaseInvalid
      else if slot in s.events then
        if s.events[slot] == r.event then Replayed else SequenceReused
      else if !op.status.Running? || op.attempt != slot.attempt || op.lease != Some(r.token) then LeaseInvalid
      else if r.event.status.Cancelled? && !op.cancelRequested then CancelNotRequested
      else if slot.sequence <= last then SequenceExists
      else if slot.sequence != last + 1 then SequenceGap
      else if op.leaseExpires <= now then LeaseInvalid
      else Appended
  }

  ghost function AfterReport(s: Log, node: NodeId, r: Report, now: int): Log {
    if Judge(s, node, r, now).Appended? then
      s.(events := s.events[r.slot := r.event],
         ops := s.ops[r.slot.operation := AfterEvent(s.ops[r.slot.operation], r.event, now)])
    else s
  }

  /** A report is appended exactly when the rule allows it; anything else changes
      nothing. The event of a terminal operation, or of an attempt that is no longer
      the current one, is an exact replay or refused. */
  lemma JudgeIsSound(s: Log, node: NodeId, r: Report, now: int)
    requires Inv(s) && r.event.status in REPORTABLE
    ensures Next(s, AfterReport(s, node, r, now))
    ensures Judge(s, node, r, now).Appended? <==>
      && r.slot.sequence > 0 && r.token != "" && r.slot.operation in s.ops && s.ops[r.slot.operation].node == node
      && Append(s, AfterReport(s, node, r, now), r.slot, r.token, r.event, now)
    ensures Judge(s, node, r, now).Replayed? ==> r.slot in s.events && s.events[r.slot] == r.event
    ensures r.slot.operation in s.ops && Closed(s.ops[r.slot.operation], r.slot.attempt) ==>
      Judge(s, node, r, now) in {Replayed, SequenceReused, LeaseInvalid}
    ensures !Judge(s, node, r, now).SequenceExists?
  {
    var v := Judge(s, node, r, now);
    var t := AfterReport(s, node, r, now);
    SequencesAreGapless(s, r.slot.operation, r.slot.attempt, r.slot.sequence);
    if r.slot.operation in s.ops {
      assert WellFormed(s.ops[r.slot.operation]);
      assert v.Appended? ==> Append(s, t, r.slot, r.token, r.event, now);
    }
  }

  /** The verdicts in plain terms: a report is stored when it is next in order, from the
      holder of the live lease; what is stored already is recognised or contradicted; and
      storing it changes one event and one operation as the report says. */
  lemma VerdictsMean(s: Log, node: NodeId, r: Report, now: int)
    requires Inv(s) && r.event.status in REPORTABLE
    ensures var v, t, id := Judge(s, node, r, now), AfterReport(s, node, r, now), r.slot.operation;
      var mine := r.slot.attempt > 0 && r.slot.sequence > 0 && r.token != "" && id in s.ops && s.ops[id].node == node;
      && (v == Replayed <==> mine && r.slot in s.events && s.events[r.slot] == r.event)
      && (v == SequenceReused <==> mine && r.slot in s.events && s.events[r.slot] != r.event)
      && (v == NoOperation <==> r.slot.attempt > 0 && r.slot.sequence > 0 && r.token != "" && id !in s.ops)
      && (v == Appended <==>
            && mine && r.slot !in s.events && s.ops[id].status == Running && s.ops[id].attempt == r.slot.attempt
            && s.ops[id].lease == Some(r.token) && s.ops[id].leaseExpires > now
            && (r.event.status == Cancelled ==> s.ops[id].cancelRequested)
            && (r.slot.sequence == 1 || Slot(id, r.slot.attempt, r.slot.sequence - 1) in s.events))
      && (v != Appended ==> t == s)
      && (v == Appended ==>
            && t.events == s.events[r.slot := r.event] && t.issued == s.issued
            && t.ops == s.ops[id := if r.event.status == Running
                 then s.ops[id].(leaseExpires := now + 90)
                 else s.ops[id].(status := r.event.status, lease := None)])
  {
    SequencesAreGapless(s, r.slot.operation, r.slot.attempt, r.slot.sequence);
    if r.slot.sequence > 1 {
      SequencesAreGapless(s, r.slot.operation, r.slot.attempt, r.slot.sequence - 1);
    }
  }
}
