/**
 The two-party protocol between one node's durable outbox and the server's event
 log. Messages are kept forever and may reach the server late, twice, or never;
 responses may be lost; the agent may crash between any two writes.
 */
module OperationOutbox {
  import opened Common
  import opened OperationLog
  import opened OperationStore

  /** The agent's record of the operation it works on. */
  datatype OpState = OpState(assignment: Assignment, lastSequence: nat, pending: Option<Report>)
  {
    predicate Same(operation: OperationId, attempt: nat) {
      assignment.operation == operation && assignment.attempt == attempt
    }
  }

  /** `sent` are the reports ever put on the wire, `reply` an assignment on its way to
      the agent, `mem` the running agent's copy of the record and `disk` the saved one. */
  datatype World = World(
    node: NodeId,
    log: Log,
    sent: set<Report>,
    reply: Option<Assignment>,
    mem: Option<OpState>,
    disk: Option<OpState>)

  // ----- Steps -----

  ghost predicate Mine(w: World, operation: OperationId) {
    operation in w.log.ops && w.log.ops[operation].node == w.node
  }

  /** The server does anything but take a report of this node. */
  ghost predicate ServerStep(s: World, t: World) {
    && Next(s.log, t.log) && t == s.(log := t.log)
    && forall slot <- t.log.events :: slot in s.log.events || (slot.operation in s.log.ops && !Mine(s, slot.operation))
  }

  ghost predicate Deliver(s: World, t: World, r: Report, now: int) {
    r in s.sent && t == s.(log := AfterReport(s.log, s.node, r, now))
  }

  /** A claim is served while the agent waits with the record it loaded. */
  ghost predicate ServeClaim(s: World, t: World, now: int) {
    && s.mem == s.disk && s.reply.None? && t.reply.Some? && var a := t.reply.value;
    && Mine(s, a.operation)
    && (|| (Claim(s.log, t.log, a.operation, a.token, now) && a.token != "" && a.attempt == s.log.ops[a.operation].attempt + 1)
        || (Extend(s.log, t.log, a.operation, a.token, now) && a.attempt == s.log.ops[a.operation].attempt
            && s.mem.Some? && s.mem.value.assignment.operation == a.operation && s.mem.value.assignment.token == a.token))
    && t == s.(log := t.log, reply := t.reply)
  }

  function Adopted(mem: Option<OpState>, a: Assignment): (m: OpState)
    ensures m.assignment == a
  {
    if mem.Some? && mem.value.Same(a.operation, a.attempt) then mem.value.(assignment := a)
    else OpState(a, 0, None)
  }

  ghost predicate Adopt(s: World, t: World) {
    s.reply.Some? && t == s.(mem := Some(Adopted(s.mem, s.reply.value)), reply := None)
  }

  ghost predicate Idle(s: World) {
    s.mem.Some? && s.reply.None?
  }

  ghost predicate Save(s: World, t: World) {
    Idle(s) && t == s.(disk := s.mem)
  }

  function NextReport(m: OpState, event: Event): Report {
    Report(Slot(m.assignment.operation, m.assignment.attempt, m.lastSequence + 1), m.assignment.token, event)
  }

  ghost predicate Enqueue(s: World, t: World, event: Event) {
    && Idle(s) && s.mem.value.pending.None? && event.status in REPORTABLE
    && t == s.(mem := Some(s.mem.value.(pending := Some(NextReport(s.mem.value, event)))))
  }

  ghost predicate Send(s: World, t: World) {
    && Idle(s) && s.mem.value.pending.Some?
    && t == s.(sent := s.sent + {s.mem.value.pending.value})
  }

  /** The server's 200 for the pending report: it is in the log. */
  ghost predicate Ack(s: World, t: World) {
    && Idle(s) && s.mem.value.pending.Some? && var r := s.mem.value.pending.value;
    && r.slot in s.log.events && s.log.events[r.slot] == r.event
    && t == s.(mem := Some(s.mem.value.(lastSequence := r.slot.sequence, pending := None)))
  }

  ghost predicate Clear(s: World, t: World) {
    Idle(s) && t == s.(mem := None, disk := None)
  }

  ghost predicate Crash(s: World, t: World) {
    t == s.(mem := None, reply := None)
  }

  ghost predicate Load(s: World, t: World) {
    t == s.(mem := s.disk, reply := None)
  }

  ghost predicate Step(s: World, t: World) {
    || s == t
    || ServerStep(s, t) || (exists r, now :: Deliver(s, t, r, now)) || (exists now :: ServeClaim(s, t, now))
    || Adopt(s, t) || Save(s, t) || (exists event :: Enqueue(s, t, event)) || Send(s, t) || Ack(s, t)
    || Clear(s, t) || Crash(s, t) || Load(s, t)
  }

  /** A report is sent from the record that was saved with it. */
  ghost predicate Saved(s: World) {
    s.mem.Some? && s.disk.Some? && s.mem.value.pending == s.disk.value.pending
  }

  ghost predicate CleanStep(s: World, t: World) {
    Send(s, t) && t != s ==> Saved(s)
  }

  ghost predicate Initial(s: World) {
    s.log == Log(map[], map[], {}) && s.sent == {} && s.reply.None? && s.mem.None? && s.disk.None?
  }

  ghost predicate Legal(run: seq<World>) {
    && run != [] && Initial(run[0])
    && forall i :: 0 < i < |run| ==> Step(run[i - 1], run[i])
  }

  ghost predicate Clean(run: seq<World>) {
    forall i :: 0 < i < |run| ==> CleanStep(run[i - 1], run[i])
  }

  // ----- The promise -----

  /** For the attempt the saved record is about, the server is at the saved sequence, or
      one ahead with exactly the saved pending report. */
  ghost predicate InStep(log: Log, d: OpState) {
    var a := d.assignment;
    var last := LastSequence(log.events, a.operation, a.attempt);
    || last == d.lastSequence
    || (&& last == d.lastSequence + 1 && d.pending.Some? && d.pending.value == NextReport(d, d.pending.value.event)
        && Slot(a.operation, a.attempt, last) in log.events
        && log.events[Slot(a.operation, a.attempt, last)] == d.pending.value.event)
  }

  ghost predicate Outbox(w: World) {
    w.disk.Some? ==> InStep(w.log, w.disk.value)
  }

  // ----- Invariant -----

  ghost predicate KnownAttempt(w: World, operation: OperationId, attempt: nat) {
    Mine(w, operation) && 1 <= attempt <= w.log.ops[operation].attempt
  }

  /** An assignment of this node whose token is the lease of no other attempt. */
  ghost predicate Genuine(w: World, a: Assignment) {
    && KnownAttempt(w, a.operation, a.attempt) && a.token in w.log.issued && a.token != ""
    && (w.log.ops[a.operation].lease == Some(a.token) ==> w.log.ops[a.operation].attempt == a.attempt)
  }

  ghost predicate WellFormedRecord(w: World, m: OpState) {
    && Genuine(w, m.assignment)
    && (m.pending.Some? ==>
      m.pending.value == NextReport(m, m.pending.value.event) && m.pending.value.event.status in REPORTABLE)
  }

  ghost predicate Unused(w: World, operation: OperationId, attempt: nat) {
    forall r <- w.sent :: !(r.slot.operation == operation && r.slot.attempt == attempt)
  }

  /** What was sent is known to the server, in order, with one event for a slot. */
  ghost predicate InOrder(w: World) {
    && (forall r <- w.sent ::
          && KnownAttempt(w, r.slot.operation, r.slot.attempt) && r.slot.sequence >= 1 && r.event.status in REPORTABLE
          && r.token != "" && (r.slot.sequence == 1 || r.slot.(sequence := r.slot.sequence - 1) in w.log.events))
    && forall r <- w.sent, q <- w.sent :: r.slot == q.slot ==> r.event == q.event
  }

  /** What the server has of this node's operations was sent. */
  ghost predicate OnlySent(w: World) {
    forall slot <- w.log.events :: Mine(w, slot.operation) ==> exists r <- w.sent :: r.slot == slot && r.event == w.log.events[slot]
  }

  ghost predicate Wire(w: World) {
    InOrder(w) && OnlySent(w)
  }

  /** The saved record covers everything sent for its attempt, and claims no more
      than the server has. */
  ghost predicate Covers(w: World, d: OpState) {
    && (forall r <- w.sent :: d.Same(r.slot.operation, r.slot.attempt) ==>
          r.slot.sequence <= d.lastSequence || d.pending == Some(r))
    && (d.lastSequence == 0 || Slot(d.assignment.operation, d.assignment.attempt, d.lastSequence) in w.log.events)
  }

  /** The working copy is the saved record, at most one acknowledgement ahead, or it
      is about an attempt nothing was sent for. */
  ghost predicate Follows(w: World, m: OpState) {
    if w.disk.Some? && w.disk.value.Same(m.assignment.operation, m.assignment.attempt) then
      var d := w.disk.value;
      || (m.lastSequence == d.lastSequence && (d.pending.Some? ==> m.pending == d.pending))
      || (m.lastSequence == d.lastSequence + 1 && d.pending.Some?
          && Slot(m.assignment.operation, m.assignment.attempt, m.lastSequence) in w.log.events)
    else
      m.lastSequence == 0 && Unused(w, m.assignment.operation, m.assignment.attempt)
  }

  ghost predicate Reply(w: World, a: Assignment) {
    && Genuine(w, a) && w.mem == w.disk
    && (|| (w.mem.Some? && w.mem.value.Same(a.operation, a.attempt) && w.mem.value.assignment.token == a.token)
        || (Unused(w, a.operation, a.attempt) && (w.disk.Some? ==> !w.disk.value.Same(a.operation, a.attempt))))
  }

  ghost predicate Inv(w: World) {
    && OperationLog.Inv(w.log) && Wire(w)
    && (w.disk.Some? ==> WellFormedRecord(w, w.disk.value) && Covers(w, w.disk.value))
    && (w.mem.Some? ==> WellFormedRecord(w, w.mem.value) && Follows(w, w.mem.value))
    && (w.reply.Some? ==> Reply(w, w.reply.value))
  }

  lemma InvGivesOutbox(w: World)
    requires Inv(w)
    ensures Outbox(w)
  {
    hide InOrder, Follows, Reply;
    if w.disk.Some? {
      var d := w.disk.value;
      var a := d.assignment;
      var last := LastSequence(w.log.events, a.operation, a.attempt);
      if last > 0 {
        var r :| r in w.sent && r.slot == Slot(a.operation, a.attempt, last) && r.event == w.log.events[r.slot];
      }
      if d.lastSequence > 0 {
        assert Slot(a.operation, a.attempt, d.lastSequence) in w.log.events;
      }
    }
  }

  // ----- Every step keeps the invariant -----

  /** A server transaction that logs nothing this node did not send. */
  lemma LogKeepsInv(s: World, t: World)
    requires Inv(s) && t == s.(log := t.log) && Next(s.log, t.log)
    requires forall slot <- t.log.events :: Mine(t, slot.operation) ==>
      exists r <- s.sent :: r.slot == slot && r.event == t.log.events[slot]
    ensures Inv(t)
  {
    NextKeepsInv(s.log, t.log);
    NextIsLater(s.log, t.log);
    forall operation, attempt | KnownAttempt(s, operation, attempt)
      ensures KnownAttempt(t, operation, attempt)
    {
      assert LaterOperation(s.log.ops[operation], t.log.ops[operation]);
    }
    forall a | Genuine(s, a)
      ensures Genuine(t, a)
    {
      assert LaterOperation(s.log.ops[a.operation], t.log.ops[a.operation]);
    }
  }

  lemma ServerKeepsInv(s: World, t: World)
    requires Inv(s) && ServerStep(s, t)
    ensures Inv(t)
  {
    NextIsLater(s.log, t.log);
    forall slot <- t.log.events | Mine(t, slot.operation)
      ensures exists r <- s.sent :: r.slot == slot && r.event == t.log.events[slot]
    {
      assert slot.operation in s.log.ops;
      assert LaterOperation(s.log.ops[slot.operation], t.log.ops[slot.operation]);
      assert Mine(s, slot.operation);
    }
    LogKeepsInv(s, t);
  }

  lemma DeliverKeepsInv(s: World, t: World, r: Report, now: int)
    requires Inv(s) && Deliver(s, t, r, now)
    ensures Inv(t)
  {
    JudgeIsSound(s.log, s.node, r, now);
    DeliveredWasSent(s, t, r, now);
    LogKeepsInv(s, t);
  }

  lemma DeliveredWasSent(s: World, t: World, r: Report, now: int)
    requires Inv(s) && Deliver(s, t, r, now)
    ensures forall slot <- t.log.events | Mine(t, slot.operation) ::
      exists q <- s.sent :: q.slot == slot && q.event == t.log.events[slot]
  {
    forall slot <- t.log.events | Mine(t, slot.operation)
      ensures exists q <- s.sent :: q.slot == slot && q.event == t.log.events[slot]
    {
      if slot in s.log.events {
        assert slot.operation in s.log.ops && Mine(s, slot.operation);
      }
    }
  }

  lemma ServedAssignment(s: World, t: World, now: int)
    requires Inv(s) && ServeClaim(s, t, now)
    ensures var a := t.reply.value;
      && a.operation in s.log.ops && Genuine(t, a)
      && if a.attempt == s.log.ops[a.operation].attempt + 1 then Unused(t, a.operation, a.attempt)
         else Genuine(s, s.mem.value.assignment)
  {
    var a := t.reply.value;
    assert WellFormed(s.log.ops[a.operation]);
    if a.attempt == s.log.ops[a.operation].attempt + 1 {
      assert Unused(t, a.operation, a.attempt);
    } else {
      assert Genuine(s, s.mem.value.assignment);
    }
  }

  lemma ServeClaimKeepsInv(s: World, t: World, now: int)
    requires Inv(s) && ServeClaim(s, t, now)
    ensures Inv(t)
  {
    var mid := s.(log := t.log);
    LogKeepsInv(s, mid);
    ServedAssignment(s, t, now);
    SameWire(mid, t);
    hide OperationLog.Inv, Wire, Unused, Genuine;
  }

  /** What is on the wire is a matter of the log and the messages only. */
  lemma SameWire(s: World, t: World)
    requires t.log == s.log && t.sent == s.sent && t.node == s.node
    ensures Wire(s) <==> Wire(t)
  {
    if Wire(s) {
      WireCarriesOver(s, t);
    }
    if Wire(t) {
      WireCarriesOver(t, s);
    }
  }

  lemma WireCarriesOver(s: World, t: World)
    requires Wire(s) && t.log == s.log && t.sent == s.sent && t.node == s.node
    ensures Wire(t)
  {
    forall slot <- t.log.events | Mine(t, slot.operation)
      ensures exists r <- t.sent :: r.slot == slot && r.event == t.log.events[slot]
    {
      assert Mine(s, slot.operation);
    }
  }

  /** The report to be sent is the saved one: nothing else was sent for its slot. */
  lemma SentOncePerSlot(s: World, q: Report)
    requires Inv(s) && s.mem.Some? && s.mem.value.pending.Some? && Saved(s) && q in s.sent
    requires q.slot == s.mem.value.pending.value.slot
    ensures q == s.mem.value.pending.value
  {
    hide OperationLog.Inv, Wire, Reply;
    assert s.disk.value.Same(q.slot.operation, q.slot.attempt);
  }

  lemma SentInOrder(s: World)
    requires Inv(s) && s.mem.Some? && s.mem.value.pending.Some?
    ensures var r := s.mem.value.pending.value;
      && KnownAttempt(s, r.slot.operation, r.slot.attempt) && r.slot.sequence >= 1 && r.event.status in REPORTABLE
      && r.token != "" && (r.slot.sequence == 1 || r.slot.(sequence := r.slot.sequence - 1) in s.log.events)
  {
    hide OperationLog.Inv, Wire, Reply;
  }

  lemma SendKeepsWire(s: World, t: World)
    requires Inv(s) && Send(s, t) && Saved(s)
    ensures Wire(t)
  {
    SentInOrder(s);
    forall q <- s.sent | q.slot == s.mem.value.pending.value.slot
      ensures q == s.mem.value.pending.value
    {
      SentOncePerSlot(s, q);
    }
    hide InOrder, OnlySent, OperationLog.Inv;
    InOrderGrows(s, t, s.mem.value.pending.value);
    OnlySentGrows(s, t, s.mem.value.pending.value);
  }

  lemma InOrderGrows(s: World, t: World, r: Report)
    requires InOrder(s) && t == s.(sent := s.sent + {r}) && forall q <- s.sent :: q.slot == r.slot ==> q == r
    requires KnownAttempt(s, r.slot.operation, r.slot.attempt) && r.slot.sequence >= 1 && r.event.status in REPORTABLE
    requires r.token != "" && (r.slot.sequence == 1 || r.slot.(sequence := r.slot.sequence - 1) in s.log.events)
    ensures InOrder(t)
  {
  }

  lemma OnlySentGrows(s: World, t: World, r: Report)
    requires OnlySent(s) && t == s.(sent := s.sent + {r})
    ensures OnlySent(t)
  {
    forall slot <- t.log.events | Mine(t, slot.operation)
      ensures exists q <- t.sent :: q.slot == slot && q.event == t.log.events[slot]
    {
      assert Mine(s, slot.operation);
      var q :| q in s.sent && q.slot == slot && q.event == s.log.events[slot];
      assert q in t.sent;
    }
  }

  lemma AdoptKeepsInv(s: World, t: World)
    requires Inv(s) && Adopt(s, t)
    ensures Inv(t)
  {
    SameWire(s, t);
    hide OperationLog.Inv, Wire;
  }

  lemma SaveKeepsInv(s: World, t: World)
    requires Inv(s) && Save(s, t)
    ensures Inv(t)
  {
    SameWire(s, t);
    hide OperationLog.Inv, Wire;
  }

  lemma EnqueueKeepsInv(s: World, t: World, event: Event)
    requires Inv(s) && Enqueue(s, t, event)
    ensures Inv(t)
  {
    SameWire(s, t);
    hide OperationLog.Inv, Wire;
  }

  lemma SendKeepsInv(s: World, t: World)
    requires Inv(s) && Send(s, t) && Saved(s)
    ensures Inv(t)
  {
    SendKeepsWire(s, t);
    hide OperationLog.Inv, Wire;
  }

  lemma AckKeepsInv(s: World, t: World)
    requires Inv(s) && Ack(s, t)
    ensures Inv(t)
  {
    SameWire(s, t);
    hide OperationLog.Inv, Wire;
  }

  lemma OtherKeepsInv(s: World, t: World)
    requires Inv(s) && (Clear(s, t) || Crash(s, t) || Load(s, t))
    ensures Inv(t)
  {
    SameWire(s, t);
    hide OperationLog.Inv, Wire;
  }

  lemma StepKeepsInv(s: World, t: World)
    requires Inv(s) && Step(s, t) && CleanStep(s, t)
    ensures Inv(t)
  {
    if ServerStep(s, t) {
      ServerKeepsInv(s, t);
    } else if r, now :| Deliver(s, t, r, now) {
      DeliverKeepsInv(s, t, r, now);
    } else if now :| ServeClaim(s, t, now) {
      ServeClaimKeepsInv(s, t, now);
    } else if Adopt(s, t) {
      AdoptKeepsInv(s, t);
    } else if Save(s, t) {
      SaveKeepsInv(s, t);
    } else if event :| Enqueue(s, t, event) {
      EnqueueKeepsInv(s, t, event);
    } else if s != t && Send(s, t) {
      SendKeepsInv(s, t);
    } else if Ack(s, t) {
      AckKeepsInv(s, t);
    } else if Clear(s, t) || Crash(s, t) || Load(s, t) {
      OtherKeepsInv(s, t);
    }
  }

  lemma {:induction false} RunInv(run: seq<World>, n: nat)
    requires Legal(run) && Clean(run) && n < |run|
    ensures Inv(run[n])
  {
    if n > 0 {
      RunInv(run, n - 1);
      StepKeepsInv(run[n - 1], run[n]);
    }
  }

  /** In every run whose reports were saved before they were sent, agent and server
      never drift apart. */
  lemma SavedRunsStayInStep(run: seq<World>)
    requires Legal(run) && Clean(run)
    ensures forall i :: 0 <= i < |run| ==> Outbox(run[i])
  {
    forall i | 0 <= i < |run|
      ensures Outbox(run[i])
    {
      RunInv(run, i);
      InvGivesOutbox(run[i]);
    }
  }

  /** Whenever the server gets round to a report of such a run, first or repeated,
      early or late, it appends it, recognises it, or refuses the lease or an
      unrequested cancellation. It never sees a gap or a reused sequence. */
  lemma ReportsNeverConflict(run: seq<World>, n: nat, r: Report, now: int)
    requires Legal(run) && Clean(run) && n < |run| && r in run[n].sent
    ensures Judge(run[n].log, run[n].node, r, now) in {Appended, Replayed, LeaseInvalid, CancelNotRequested}
    ensures Judge(run[n].log, run[n].node, r, now).Replayed? <==> r.slot in run[n].log.events
  {
    RunInv(run, n);
    var w := run[n];
    var slot := r.slot;
    assert KnownAttempt(w, slot.operation, slot.attempt);
    SequencesAreGapless(w.log, slot.operation, slot.attempt, slot.sequence);
    if slot.sequence > 1 {
      SequencesAreGapless(w.log, slot.operation, slot.attempt, slot.sequence - 1);
    }
  }

  lemma OneAheadIsStored(w: World, d: OpState)
    requires Inv(w) && w.disk == Some(d) && d.pending.Some?
    ensures var slot := d.pending.value.slot;
      && (slot in w.log.events <==>
            LastSequence(w.log.events, d.assignment.operation, d.assignment.attempt) == d.lastSequence + 1)
      && (slot in w.log.events ==> w.log.events[slot] == d.pending.value.event)
  {
    InvGivesOutbox(w);
    var slot := d.pending.value.slot;
    SequencesAreGapless(w.log, slot.operation, slot.attempt, slot.sequence);
  }

  lemma ResendIsJudged(w: World, d: OpState, now: int)
    requires Inv(w) && w.disk == Some(d) && d.pending.Some?
    ensures Judge(w.log, w.node, d.pending.value, now).Replayed? <==>
      LastSequence(w.log.events, d.assignment.operation, d.assignment.attempt) == d.lastSequence + 1
  {
    OneAheadIsStored(w, d);
    assert WellFormedRecord(w, d);
    var r := d.pending.value;
    assert r.token != "" && r.slot.attempt > 0 && r.slot.sequence > 0 && Mine(w, r.slot.operation);
  }

  /** Resending the saved report is an exact replay when the server is one ahead. */
  lemma ResendReplays(run: seq<World>, n: nat, d: OpState, now: int)
    requires Legal(run) && Clean(run) && n < |run| && run[n].disk == Some(d) && d.pending.Some?
    ensures Judge(run[n].log, run[n].node, d.pending.value, now).Replayed? <==>
      LastSequence(run[n].log.events, d.assignment.operation, d.assignment.attempt) == d.lastSequence + 1
  {
    RunInv(run, n);
    ResendIsJudged(run[n], d, now);
  }

  // ----- A failed save -----

  /** Saving can also fail without a crash, and the agent then sends the report it
      could not save. When the server appends it, both sides stay in step exactly
      if the saved record holds that report after all. */
  lemma AppendStaysInStepIffSaved(w: World, r: Report, now: int)
    requires Inv(w) && w.disk.Some? && w.disk.value.Same(r.slot.operation, r.slot.attempt)
    requires r.event.status in REPORTABLE && Judge(w.log, w.node, r, now).Appended?
    ensures InStep(AfterReport(w.log, w.node, r, now), w.disk.value) <==>
      w.disk.value.pending.Some? && w.disk.value.pending.value.event == r.event
        && r.slot.sequence == w.disk.value.lastSequence + 1
  {
    InvGivesOutbox(w);
    var d := w.disk.value;
    var after := AfterReport(w.log, w.node, r, now).events;
    SequencesAreGapless(w.log, r.slot.operation, r.slot.attempt, r.slot.sequence);
    LastSequenceUnique(after, r.slot.operation, r.slot.attempt, r.slot.sequence);
  }

  lemma ExtendLegal(run: seq<World>, next: World)
    requires Legal(run) && Step(run[|run| - 1], next)
    ensures Legal(run + [next])
  {
    var longer := run + [next];
    forall i | 0 < i < |longer|
      ensures Step(longer[i - 1], longer[i])
    {
      if i < |run| {
        assert longer[i - 1] == run[i - 1] && longer[i] == run[i];
      }
    }
  }

  const STARTED := Event(Status.Running, "starting", "", "{}", "{}", "")
  const OTHER := STARTED.(phase := "reconciling")

  function Working(): World {
    var a := Assignment("op", 1, "t");
    var op := Operation("n", "k", Request("logs.collect", "{}", {}, None, None, None), Status.Running, 1, Some("t"), LEASE_SECONDS, false);
    World("n", Log(map["op" := op], map[], {"t"}), {}, None, Some(OpState(a, 0, None)), Some(OpState(a, 0, None)))
  }

  lemma ReachWorking() returns (run: seq<World>)
    ensures Legal(run) && run[|run| - 1] == Working()
  {
    var w := Working();
    var queued := w.log.ops["op"].(status := Queued, attempt := 0, lease := None, leaseExpires := 0);
    var w0 := World("n", Log(map[], map[], {}), {}, None, None, None);
    var w1 := w0.(log := Log(map["op" := queued], map[], {}));
    assert Create(w0.log, w1.log, "op");
    run := [w0];
    ExtendLegal(run, w1);
    run := run + [w1];
    var w2 := w1.(log := w.log, reply := Some(Assignment("op", 1, "t")));
    assert Claim(w1.log, w2.log, "op", "t", 0);
    assert ServeClaim(w1, w2, 0);
    ExtendLegal(run, w2);
    run := run + [w2];
    var w3 := w2.(mem := w.mem, reply := None);
    assert Adopt(w2, w3);
    ExtendLegal(run, w3);
    run := run + [w3];
    assert Save(w3, w);
    ExtendLegal(run, w);
    run := run + [w];
  }

  /** It does happen: a report whose save failed is sent and appended, the agent
      restarts from its saved record, and its next report is a conflicting reuse. */
  lemma UnsavedReportConflicts() returns (run: seq<World>, r: Report)
    ensures Legal(run) && var w := run[|run| - 1];
      && r in w.sent && Saved(w) && w.mem.value.pending == Some(r)
      && Judge(w.log, w.node, r, 0) == SequenceReused
  {
    run := ReachWorking();
    var w4 := Working();
    var first := NextReport(w4.mem.value, STARTED);
    r := NextReport(w4.mem.value, OTHER);
    var w5 := w4.(mem := Some(w4.mem.value.(pending := Some(first))));
    assert Enqueue(w4, w5, STARTED);
    ExtendLegal(run, w5);
    var w6 := w5.(sent := {first});
    assert Send(w5, w6);
    ExtendLegal(run + [w5], w6);
    run := run + [w5] + [w6];
    LastSequenceUnique(w6.log.events, "op", 1, 0);
    var w7 := w6.(log := AfterReport(w6.log, "n", first, 0));
    assert Deliver(w6, w7, first, 0);
    ExtendLegal(run, w7);
    var w8 := w7.(mem := w7.disk);
    assert Load(w7, w8);
    ExtendLegal(run + [w7], w8);
    run := run + [w7] + [w8];
    var w9 := w8.(mem := Some(w8.mem.value.(pending := Some(r))));
    assert Enqueue(w8, w9, OTHER);
    ExtendLegal(run, w9);
    var w10 := w9.(disk := w9.mem);
    assert Save(w9, w10);
    ExtendLegal(run + [w9], w10);
    run := run + [w9] + [w10];
    var w11 := w10.(sent := {first, r});
    assert Send(w10, w11);
    ExtendLegal(run, w11);
    run := run + [w11];
  }
}
