/**
 When both sides of the outbox stay in step over whole runs, failed saves included: exactly
 as long as whatever the server appends at the saved record's attempt is the saved report.
 */
module OutboxRuns {
  import opened Common
  import opened OperationLog
  import opened OperationStore
  import opened OperationOutbox

  /** Every event that comes new at the attempt of the saved record is its pending report. */
  ghost predicate AppendsSaved(s: World, t: World) {
    forall slot <- t.log.events ::
      slot in s.log.events || s.disk.None? || !s.disk.value.Same(slot.operation, slot.attempt)
      || IsPending(s.disk.value, slot, t.log.events[slot])
  }

  predicate IsPending(d: OpState, slot: Slot, event: Event) {
    d.pending.Some? && d.pending.value.slot == slot && d.pending.value.event == event
  }

  // ----- Invariant -----

  ghost predicate SentIsKnown(w: World) {
    forall r <- w.sent :: KnownAttempt(w, r.slot.operation, r.slot.attempt) && r.event.status in REPORTABLE
  }

  /** The working copy of an attempt that is not the saved one covers all sent for it. */
  ghost predicate Holds(w: World, m: OpState) {
    && (forall r <- w.sent :: m.Same(r.slot.operation, r.slot.attempt) ==>
          r.slot.sequence <= m.lastSequence || m.pending == Some(r))
    && (m.lastSequence == 0 || Slot(m.assignment.operation, m.assignment.attempt, m.lastSequence) in w.log.events)
  }

  /** The working copy is the saved record, with a pending report of its own at most if that
      has none, or one acknowledgement ahead of it. */
  ghost predicate Trails(w: World, m: OpState, d: OpState) {
    || (m.lastSequence == d.lastSequence && (d.pending.Some? ==> m.pending == d.pending))
    || (m.lastSequence == d.lastSequence + 1 && d.pending.Some?
        && Slot(m.assignment.operation, m.assignment.attempt, m.lastSequence) in w.log.events)
  }

  ghost predicate Working(w: World, m: OpState) {
    if w.disk.Some? && w.disk.value.Same(m.assignment.operation, m.assignment.attempt)
    then Trails(w, m, w.disk.value) else Holds(w, m)
  }

  ghost predicate Inv(w: World) {
    && OperationLog.Inv(w.log) && OnlySent(w) && SentIsKnown(w)
    && (w.disk.Some? ==> WellFormedRecord(w, w.disk.value) && InStep(w.log, w.disk.value))
    && (w.mem.Some? ==> WellFormedRecord(w, w.mem.value) && Working(w, w.mem.value))
    && (w.reply.Some? ==> Reply(w, w.reply.value))
  }

  // ----- The log moves -----

  ghost predicate SameEvents(s: Log, t: Log, a: Assignment) {
    forall slot: Slot | slot.operation == a.operation && slot.attempt == a.attempt ::
      (slot in s.events <==> slot in t.events) && (slot in s.events ==> s.events[slot] == t.events[slot])
  }

  lemma SameEventsInStep(s: Log, t: Log, d: OpState)
    requires SameEvents(s, t, d.assignment) && InStep(s, d)
    ensures InStep(t, d)
  {
    var a := d.assignment;
    LastSequenceUnique(t.events, a.operation, a.attempt, LastSequence(s.events, a.operation, a.attempt));
  }

  lemma KnownStaysKnown(s: World, t: World)
    requires OperationLog.Inv(s.log) && t == s.(log := t.log) && Next(s.log, t.log)
    ensures OperationLog.Inv(t.log) && s.log.events.Keys <= t.log.events.Keys
    ensures forall operation, attempt :: KnownAttempt(s, operation, attempt) ==> KnownAttempt(t, operation, attempt)
    ensures forall a :: Genuine(s, a) ==> Genuine(t, a)
  {
    NextKeepsInv(s.log, t.log);
    NextIsLater(s.log, t.log);
    forall operation, attempt | KnownAttempt(s, operation, attempt)
      ensures KnownAttempt(t, operation, attempt)
    {
      assert LaterOperation(s.log.ops[operation], t.log.ops[operation]);
    }
    forall a | Genuine(s, a)
      ensures Genuine(t, a)
    {
      assert LaterOperation(s.log.ops[a.operation], t.log.ops[a.operation]);
    }
  }

  /** The part of the invariant that only needs the log to move on. */
  lemma LogMoves(s: World, t: World)
    requires Inv(s) && t == s.(log := t.log) && Next(s.log, t.log) && OnlySent(t)
    requires s.disk.Some? ==> InStep(t.log, s.disk.value)
    ensures Inv(t)
  {
    hide OperationLog.Inv, OnlySent, InStep, Genuine, KnownAttempt, Next;
    KnownStaysKnown(s, t);
  }

  lemma ServerMoves(s: World, t: World)
    requires Inv(s) && ServerStep(s, t)
    ensures Inv(t) && AppendsSaved(s, t)
  {
    NextIsLater(s.log, t.log);
    forall slot <- t.log.events | Mine(t, slot.operation)
      ensures slot in s.log.events && exists r <- s.sent :: r.slot == slot && r.event == t.log.events[slot]
    {
      if slot.operation in s.log.ops {
        assert LaterOperation(s.log.ops[slot.operation], t.log.ops[slot.operation]);
      }
      assert slot in s.log.events && Mine(s, slot.operation);
    }
    if s.disk.Some? {
      assert KnownAttempt(s, s.disk.value.assignment.operation, s.disk.value.assignment.attempt);
      assert LaterOperation(s.log.ops[s.disk.value.assignment.operation], t.log.ops[s.disk.value.assignment.operation]);
      SameEventsInStep(s.log, t.log, s.disk.value);
    }
    LogMoves(s, t);
  }

  lemma DeliveredIsSent(s: World, t: World, r: Report, now: int)
    requires Inv(s) && Deliver(s, t, r, now)
    ensures OnlySent(t) && Next(s.log, t.log)
  {
    JudgeIsSound(s.log, s.node, r, now);
    hide Judge, KnownAttempt;
    forall slot <- t.log.events | Mine(t, slot.operation)
      ensures exists q <- s.sent :: q.slot == slot && q.event == t.log.events[slot]
    {
      if slot in s.log.events {
        assert slot.operation in s.log.ops && Mine(s, slot.operation);
      }
    }
  }

  /** One more event right behind the last leaves the record in step exactly if it is the
      pending report. */
  lemma NextEventInStepIff(events: map<Slot, Event>, d: OpState, slot: Slot, event: Event, log: Log)
    requires var last := LastSequence(events, d.assignment.operation, d.assignment.attempt);
      && slot == Slot(d.assignment.operation, d.assignment.attempt, last + 1) && log.events == events[slot := event]
      && (last == d.lastSequence || last == d.lastSequence + 1)
      && (d.pending.Some? ==> d.pending.value == NextReport(d, d.pending.value.event))
    ensures InStep(log, d) <==> IsPending(d, slot, event)
  {
    LastSequenceUnique(log.events, slot.operation, slot.attempt, slot.sequence);
  }

  lemma AppendIs(s: World, t: World, r: Report, now: int)
    requires Inv(s) && Deliver(s, t, r, now) && Judge(s.log, s.node, r, now).Appended?
    ensures r.slot == Slot(r.slot.operation, r.slot.attempt, LastSequence(s.log.events, r.slot.operation, r.slot.attempt) + 1)
    ensures t.log.events == s.log.events[r.slot := r.event] && r.slot !in s.log.events
  {
  }

  /** An append at the saved attempt leaves the record in step exactly if it is the pending
      report. */
  lemma AppendInStepIff(s: World, t: World, r: Report, now: int)
    requires Inv(s) && Deliver(s, t, r, now) && s.disk.Some?
    ensures InStep(t.log, s.disk.value) <==> AppendsSaved(s, t)
  {
    var d := s.disk.value;
    if Judge(s.log, s.node, r, now).Appended? {
      AppendIs(s, t, r, now);
      if d.Same(r.slot.operation, r.slot.attempt) {
        NextEventInStepIff(s.log.events, d, r.slot, r.event, t.log);
        AppendsSavedIff(s, t, d, r.slot, r.event);
      } else {
        hide Judge, AfterReport, OnlySent;
        SameEventsInStep(s.log, t.log, d);
      }
    }
  }

  lemma AppendsSavedIff(s: World, t: World, d: OpState, slot: Slot, event: Event)
    requires s.disk == Some(d) && d.Same(slot.operation, slot.attempt)
    requires slot !in s.log.events && t.log.events == s.log.events[slot := event]
    ensures AppendsSaved(s, t) <==> IsPending(d, slot, event)
  {
    assert slot in t.log.events;
  }

  lemma DeliverMoves(s: World, t: World, r: Report, now: int)
    requires Inv(s) && Deliver(s, t, r, now) && AppendsSaved(s, t)
    ensures Inv(t)
  {
    DeliveredIsSent(s, t, r, now);
    if s.disk.Some? {
      AppendInStepIff(s, t, r, now);
    }
    hide OperationLog.Inv, OnlySent, InStep, AppendsSaved;
    LogMoves(s, t);
  }

  lemma ClaimAddsNoEvent(s: World, t: World, now: int)
    requires Inv(s) && ServeClaim(s, t, now)
    ensures t.log.events == s.log.events && Next(s.log, t.log) && OnlySent(s.(log := t.log))
    ensures s.disk.Some? ==> InStep(t.log, s.disk.value)
  {
    var mid := s.(log := t.log);
    forall slot <- mid.log.events | Mine(mid, slot.operation)
      ensures exists r <- s.sent :: r.slot == slot && r.event == mid.log.events[slot]
    {
      assert Mine(s, slot.operation);
    }
    if s.disk.Some? {
      SameEventsInStep(s.log, t.log, s.disk.value);
    }
  }

  lemma ClaimMoves(s: World, t: World, now: int)
    requires Inv(s) && ServeClaim(s, t, now)
    ensures Inv(t)
  {
    ClaimAddsNoEvent(s, t, now);
    ClaimedIsFresh(s, t, now);
    hide OperationLog.Inv, OnlySent, InStep, Genuine, KnownAttempt, Next;
    var mid := s.(log := t.log);
    LogMoves(s, mid);
    SameSent(mid, t);
  }

  lemma SameSent(s: World, t: World)
    requires OnlySent(s) && t.log == s.log && t.sent == s.sent && t.node == s.node
    ensures OnlySent(t)
  {
    forall slot <- t.log.events | Mine(t, slot.operation)
      ensures exists r <- t.sent :: r.slot == slot && r.event == t.log.events[slot]
    {
      assert Mine(s, slot.operation);
    }
  }

  lemma ClaimedIsFresh(s: World, t: World, now: int)
    requires Inv(s) && ServeClaim(s, t, now)
    ensures Genuine(t, t.reply.value) && Reply(t, t.reply.value)
  {
    var a := t.reply.value;
    assert WellFormed(s.log.ops[a.operation]);
    if a.attempt == s.log.ops[a.operation].attempt + 1 {
      assert Unused(t, a.operation, a.attempt);
    } else {
      assert Genuine(s, s.mem.value.assignment);
    }
  }

  // ----- The agent moves -----

  lemma AdoptMoves(s: World, t: World)
    requires Inv(s) && Adopt(s, t)
    ensures Inv(t)
  {
    SameSent(s, t);
    hide OperationLog.Inv, OnlySent, InStep;
  }

  /** What is saved is in step: the saved record moves on with the working copy. */
  lemma WorkingIsInStep(w: World, m: OpState)
    requires Inv(w) && w.mem == Some(m)
    ensures InStep(w.log, m)
  {
    var a := m.assignment;
    var last := LastSequence(w.log.events, a.operation, a.attempt);
    assert m.lastSequence == 0 || Slot(a.operation, a.attempt, m.lastSequence) in w.log.events ==> m.lastSequence <= last;
    if !(w.disk.Some? && w.disk.value.Same(a.operation, a.attempt)) && last > 0 {
      assert Mine(w, a.operation) && Slot(a.operation, a.attempt, last) in w.log.events;
      var r :| r in w.sent && r.slot == Slot(a.operation, a.attempt, last) && r.event == w.log.events[r.slot];
    }
  }

  lemma SaveMoves(s: World, t: World)
    requires Inv(s) && Save(s, t)
    ensures Inv(t)
  {
    WorkingIsInStep(s, s.mem.value);
    SameSent(s, t);
    hide OperationLog.Inv, OnlySent, InStep;
  }

  lemma EnqueueMoves(s: World, t: World, event: Event)
    requires Inv(s) && Enqueue(s, t, event)
    ensures Inv(t)
  {
    SameSent(s, t);
    hide OperationLog.Inv, OnlySent, InStep;
  }

  lemma SendMoves(s: World, t: World)
    requires Inv(s) && Send(s, t)
    ensures Inv(t)
  {
    OnlySentGrows(s, t, s.mem.value.pending.value);
    hide OperationLog.Inv, OnlySent, InStep;
  }

  lemma AckMoves(s: World, t: World)
    requires Inv(s) && Ack(s, t)
    ensures Inv(t)
  {
    SameSent(s, t);
    hide OperationLog.Inv, OnlySent;
    var m := s.mem.value;
    assert m.lastSequence + 1 <= LastSequence(s.log.events, m.assignment.operation, m.assignment.attempt);
  }

  lemma OtherMoves(s: World, t: World)
    requires Inv(s) && (Clear(s, t) || Crash(s, t) || Load(s, t))
    ensures Inv(t)
  {
    SameSent(s, t);
    hide OperationLog.Inv, OnlySent, InStep;
  }

  // ----- Whole runs -----

  lemma StepIff(s: World, t: World)
    requires Inv(s) && Step(s, t)
    ensures Outbox(t) <==> AppendsSaved(s, t)
    ensures AppendsSaved(s, t) ==> Inv(t)
  {
    hide Inv, ServerStep, Deliver, ServeClaim, Adopt, Save, Enqueue, Send, Ack, Clear, Crash, Load;
    if ServerStep(s, t) {
      ServerMoves(s, t);
    } else if r, now :| Deliver(s, t, r, now) {
      DeliverIff(s, t, r, now);
    } else {
      QuietStep(s, t);
    }
    if Inv(t) {
      InvGivesOutbox(t);
    }
  }

  lemma InvGivesOutbox(w: World)
    requires Inv(w)
    ensures Outbox(w)
  {
  }

  lemma DeliverIff(s: World, t: World, r: Report, now: int)
    requires Inv(s) && Deliver(s, t, r, now)
    ensures Outbox(t) <==> AppendsSaved(s, t)
    ensures AppendsSaved(s, t) ==> Inv(t)
  {
    if s.disk.Some? {
      AppendInStepIff(s, t, r, now);
    }
    if AppendsSaved(s, t) {
      DeliverMoves(s, t, r, now);
    }
  }

  /** No other step adds an event. */
  lemma QuietStep(s: World, t: World)
    requires Inv(s) && Step(s, t) && !ServerStep(s, t) && forall r, now :: !Deliver(s, t, r, now)
    ensures Inv(t) && AppendsSaved(s, t)
  {
    hide Inv, Deliver, ServerStep;
    if now :| ServeClaim(s, t, now) {
      ClaimMoves(s, t, now);
    } else if Adopt(s, t) {
      AdoptMoves(s, t);
    } else if Save(s, t) {
      SaveMoves(s, t);
    } else if event :| Enqueue(s, t, event) {
      EnqueueMoves(s, t, event);
    } else if Send(s, t) {
      SendMoves(s, t);
    } else if Ack(s, t) {
      AckMoves(s, t);
    } else if Clear(s, t) || Crash(s, t) || Load(s, t) {
      OtherMoves(s, t);
    }
  }

  ghost predicate InStepUpTo(run: seq<World>, n: nat) {
    n < |run| && forall i :: 0 <= i <= n ==> Outbox(run[i])
  }

  ghost predicate SavedUpTo(run: seq<World>, n: nat) {
    n < |run| && forall i :: 0 < i <= n ==> AppendsSaved(run[i - 1], run[i])
  }

  /** In every run, whatever saves fail: agent and server stay in step if and only if every
      report that the server appends at the saved record's attempt is the one saved there. */
  lemma {:induction false} InStepIffAppendsSaved(run: seq<World>, n: nat)
    requires Legal(run) && n < |run|
    ensures InStepUpTo(run, n) <==> SavedUpTo(run, n)
    ensures SavedUpTo(run, n) ==> Inv(run[n])
  {
    if n > 0 {
      hide Inv, Outbox, AppendsSaved, Step;
      InStepIffAppendsSaved(run, n - 1);
      assert InStepUpTo(run, n) <==> InStepUpTo(run, n - 1) && Outbox(run[n]);
      assert SavedUpTo(run, n) <==> SavedUpTo(run, n - 1) && AppendsSaved(run[n - 1], run[n]);
      if SavedUpTo(run, n - 1) {
        StepIff(run[n - 1], run[n]);
      }
    }
  }
}
