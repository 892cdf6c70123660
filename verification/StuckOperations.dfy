/**
 Which active operation can still come to an end, over a clock that does not go back. A
 running operation that was asked to cancel can only be ended by the holder of its lease;
 once the lease has run out, nobody can, and its node never gets another operation.
 */
module StuckOperations {
  import opened Common
  import opened OperationLog

  datatype Moment = Moment(log: Log, now: int)

  /** A server transaction at a given clock reading. */
  ghost predicate NextAt(s: Log, t: Log, now: int) {
    || s == t
    || (exists id :: Create(s, t, id))
    || Withdraw(s, t)
    || (exists id :: RequestCancel(s, t, id))
    || (exists id, token :: Claim(s, t, id, token, now))
    || (exists id, token :: Extend(s, t, id, token, now))
    || (exists slot, token, event :: Append(s, t, slot, token, event, now))
  }

  ghost predicate Tick(a: Moment, b: Moment) {
    a.now <= b.now && NextAt(a.log, b.log, b.now)
  }

  ghost predicate Course(c: seq<Moment>) {
    c != [] && forall i :: 0 < i < |c| ==> Tick(c[i - 1], c[i])
  }

  lemma ExtendCourse(c: seq<Moment>, next: Moment)
    requires Course(c) && Tick(c[|c| - 1], next)
    ensures Course(c + [next])
  {
    hide Tick;
    var longer := c + [next];
    forall i | 0 < i < |longer|
      ensures Tick(longer[i - 1], longer[i])
    {
      if i < |c| {
        assert longer[i - 1] == c[i - 1] && longer[i] == c[i];
      }
    }
  }

  predicate Stuck(op: Operation, now: int) {
    op.status.Running? && op.cancelRequested && op.leaseExpires <= now
  }

  predicate StuckIn(m: Moment, id: OperationId) {
    id in m.log.ops && Stuck(m.log.ops[id], m.now)
  }

  /** No operation of the node came new. */
  predicate NothingNew(s: Log, t: Log, node: NodeId) {
    forall o <- t.ops :: t.ops[o].node == node ==> o in s.ops
  }

  lemma StuckTick(a: Moment, b: Moment, id: OperationId)
    requires StuckIn(a, id) && Tick(a, b)
    ensures StuckIn(b, id) && b.log.ops[id] == a.log.ops[id] && NothingNew(a.log, b.log, a.log.ops[id].node)
  {
  }

  /** From then on nothing changes a stuck operation, and its node gets no other one. */
  lemma {:induction false} StuckForever(c: seq<Moment>, n: nat, id: OperationId)
    requires Course(c) && n < |c| && StuckIn(c[0], id)
    ensures id in c[n].log.ops && c[n].log.ops[id] == c[0].log.ops[id] && StuckIn(c[n], id)
    ensures NothingNew(c[0].log, c[n].log, c[0].log.ops[id].node)
  {
    if n > 0 {
      StuckForever(c, n - 1, id);
      StuckTick(c[n - 1], c[n], id);
    }
  }

  // ----- Everything else can end -----

  const FAILURE := Event(Status.Failed, "failed", "", "{}", "{}", "")

  predicate EndsIn(m: Moment, id: OperationId) {
    id in m.log.ops && !m.log.ops[id].status.Active()
  }

  /** `t` is `s` but for this operation, its events and the tokens handed out. */
  predicate OnlyThis(s: Log, t: Log, id: OperationId) {
    id in s.ops && id in t.ops && t.ops == s.ops[id := t.ops[id]]
      && t.ops[id].node == s.ops[id].node && t.ops[id].key == s.ops[id].key
  }

  /** The holder of a live lease reports a failure. */
  lemma ReportEnds(m: Moment, id: OperationId) returns (end: Moment)
    requires OperationLog.Inv(m.log) && id in m.log.ops && m.log.ops[id].status.Running? && m.log.ops[id].leaseExpires > m.now
    ensures Tick(m, end) && EndsIn(end, id) && OnlyThis(m.log, end.log, id)
  {
    var op := m.log.ops[id];
    assert WellFormed(op);
    var slot := Slot(id, op.attempt, LastSequence(m.log.events, id, op.attempt) + 1);
    var log := m.log.(events := m.log.events[slot := FAILURE],
                      ops := m.log.ops[id := AfterEvent(op, FAILURE, m.now)]);
    assert Append(m.log, log, slot, op.lease.value, FAILURE, m.now);
    end := Moment(log, m.now);
  }

  lemma {:induction false} FreshString(used: set<string>) returns (s: string)
    ensures s !in used && s != ""
  {
    s := "x";
    var left := used;
    while left != {}
      invariant left <= used && |s| > 0 && forall t <- used :: t in left || |t| < |s|
    {
      var t :| t in left;
      left := left - {t};
      if |s| <= |t| {
        s := t + "x";
      }
    }
  }

  /** A lease that ran out is claimed again, as soon as the start time allows. */
  lemma ClaimAgain(m: Moment, id: OperationId) returns (next: Moment)
    requires OperationLog.Inv(m.log) && id in m.log.ops && m.log.ops[id].status.Running?
    requires m.log.ops[id].leaseExpires <= m.now && !m.log.ops[id].cancelRequested
    ensures Tick(m, next) && OperationLog.Inv(next.log) && OnlyThis(m.log, next.log, id) && id in next.log.ops
    ensures next.log.ops[id].status.Running? && next.log.ops[id].leaseExpires > next.now
  {
    var op := m.log.ops[id];
    assert WellFormed(op);
    var now := if op.request.notBefore.Some? && op.request.notBefore.value > m.now then op.request.notBefore.value else m.now;
    var token := FreshString(m.log.issued);
    var log := m.log.(issued := m.log.issued + {token},
                      ops := m.log.ops[id := op.(attempt := op.attempt + 1, lease := Some(token), leaseExpires := now + LEASE_SECONDS)]);
    assert Claim(m.log, log, id, token, now);
    NextKeepsInv(m.log, log);
    next := Moment(log, now);
  }

  /** A queued operation is cancelled at once. */
  lemma CancelEnds(m: Moment, id: OperationId) returns (end: Moment)
    requires id in m.log.ops && m.log.ops[id].status.Queued?
    ensures Tick(m, end) && EndsIn(end, id) && OnlyThis(m.log, end.log, id)
  {
    var log := m.log.(ops := m.log.ops[id := m.log.ops[id].(status := Cancelled)]);
    assert Withdraw(m.log, log);
    end := Moment(log, m.now);
  }

  lemma OnlyThisTwice(s: Log, t: Log, u: Log, id: OperationId)
    requires OnlyThis(s, t, id) && OnlyThis(t, u, id)
    ensures OnlyThis(s, u, id)
  {
  }

  lemma EndIt(m: Moment, id: OperationId) returns (c: seq<Moment>)
    requires OperationLog.Inv(m.log) && id in m.log.ops && m.log.ops[id].status.Active() && !Stuck(m.log.ops[id], m.now)
    ensures Course(c) && c[0] == m && EndsIn(c[|c| - 1], id) && OnlyThis(m.log, c[|c| - 1].log, id)
  {
    hide OperationLog.Inv, Tick, OnlyThis, EndsIn;
    if m.log.ops[id].status.Queued? {
      var end := CancelEnds(m, id);
      c := [m, end];
    } else if m.log.ops[id].leaseExpires > m.now {
      var end := ReportEnds(m, id);
      c := [m, end];
    } else {
      var next := ClaimAgain(m, id);
      var end := ReportEnds(next, id);
      OnlyThisTwice(m.log, next.log, end.log, id);
      c := [m, next, end];
    }
  }

  ghost predicate CanEnd(m: Moment, id: OperationId) {
    exists c: seq<Moment> :: EndsOn(c, m, id)
  }

  ghost predicate EndsOn(c: seq<Moment>, m: Moment, id: OperationId) {
    Course(c) && c[0] == m && EndsIn(c[|c| - 1], id)
  }

  /** An active operation can still be brought to an end if and only if it is not running
      with a requested cancellation and an expired lease. */
  lemma CanEndIffNotStuck(m: Moment, id: OperationId)
    requires OperationLog.Inv(m.log) && id in m.log.ops && m.log.ops[id].status.Active()
    ensures CanEnd(m, id) <==> !Stuck(m.log.ops[id], m.now)
  {
    if Stuck(m.log.ops[id], m.now) {
      forall c: seq<Moment>
        ensures !EndsOn(c, m, id)
      {
        if Course(c) && c[0] == m {
          StuckForever(c, |c| - 1, id);
        }
      }
    } else {
      var c := EndIt(m, id);
      assert EndsOn(c, m, id);
    }
  }

  // ----- The node -----

  ghost predicate GetsAnother(c: seq<Moment>, m: Moment, node: NodeId) {
    Course(c) && c[0] == m && !NothingNew(m.log, c[|c| - 1].log, node)
  }

  lemma FreeNodeGetsOne(m: Moment, node: NodeId) returns (next: Moment)
    requires forall o <- m.log.ops :: m.log.ops[o].node == node ==> !m.log.ops[o].status.Active()
    ensures Tick(m, next) && exists id :: id !in m.log.ops && id in next.log.ops && next.log.ops[id].node == node
  {
    var id := FreshString(m.log.ops.Keys);
    var key := FreshString(set o <- m.log.ops :: m.log.ops[o].key);
    var op := Operation(node, key, Request("logs.collect", "{}", {}, None, None, None), Status.Queued, 0, None, 0, false);
    var log := m.log.(ops := m.log.ops[id := op]);
    assert Create(m.log, log, id);
    next := Moment(log, m.now);
  }

  /** A node can get another operation if and only if none of its operations is stuck. */
  lemma NodeGetsAnotherIff(m: Moment, node: NodeId)
    requires OperationLog.Inv(m.log)
    ensures (exists c: seq<Moment> :: GetsAnother(c, m, node)) <==>
      forall id <- m.log.ops :: m.log.ops[id].node == node ==> !Stuck(m.log.ops[id], m.now)
  {
    if id :| id in m.log.ops && m.log.ops[id].node == node && Stuck(m.log.ops[id], m.now) {
      forall c: seq<Moment>
        ensures !GetsAnother(c, m, node)
      {
        if Course(c) && c[0] == m {
          StuckForever(c, |c| - 1, id);
        }
      }
    } else {
      var c := NodeGetsAnother(m, node);
    }
  }

  lemma NodeGetsAnother(m: Moment, node: NodeId) returns (c: seq<Moment>)
    requires OperationLog.Inv(m.log)
    requires forall id <- m.log.ops :: m.log.ops[id].node == node ==> !Stuck(m.log.ops[id], m.now)
    ensures GetsAnother(c, m, node)
  {
    c := [m];
    if id :| id in m.log.ops && m.log.ops[id].node == node && m.log.ops[id].status.Active() {
      c := EndIt(m, id);
      var end := c[|c| - 1];
      forall o <- end.log.ops | end.log.ops[o].node == node
        ensures !end.log.ops[o].status.Active()
      {
        assert o != id ==> Rivals(m.log, id, o);
      }
    }
    var next := FreeNodeGetsOne(c[|c| - 1], node);
    ExtendCourse(c, next);
    c := c + [next];
  }

  /** It happens: an operation is claimed, asked to cancel, and its node is away for longer
      than the lease. */
  lemma StuckIsReachable() returns (c: seq<Moment>)
    ensures Course(c) && c[0].log == Log(map[], map[], {}) && StuckIn(c[|c| - 1], "op")
  {
    var queued := Operation("n", "k", Request("diagnostics.collect", "{}", {}, None, None, None), Status.Queued, 0, None, 0, false);
    var running := queued.(status := Running, attempt := 1, lease := Some("t"), leaseExpires := LEASE_SECONDS);
    var s0 := Log(map[], map[], {});
    var s1 := Log(map["op" := queued], map[], {});
    var s2 := Log(map["op" := running], map[], {"t"});
    var s3 := Log(map["op" := running.(cancelRequested := true)], map[], {"t"});
    assert Create(s0, s1, "op") && Claim(s1, s2, "op", "t", 0) && RequestCancel(s2, s3, "op");
    c := [Moment(s0, 0), Moment(s1, 0), Moment(s2, 0), Moment(s3, 0), Moment(s3, LEASE_SECONDS)];
  }
}
