/**
 The campaign controller: reconcile, resume and cancel, as the handlers run them
 against the store. Every database call may fail, and the server may stop after any
 write; operations and nodes change between any two calls.
 */
module UpdateCampaignController {
  import opened Common
  import opened CampaignRules

  datatype CreateResult = CreateFailed | NodeBusy | Found(id: nat, status: OperationStatus)

  /** How a resume or cancel request ends; a conflict is answered without any write. */
  datatype RequestResult = Accepted | Conflict | RequestFailed

  /** What the member row shows once the operation's end has been read. */
  function EndShown(o: Operation): MemberStatus {
    if o.status == Expired && !o.claimed then Skipped else Shows(ShownStatus(o))
  }

  /** If the member's operation had ended in `w`, the row says so in `v`. */
  predicate Settled(w: World, v: World, i: nat)
    requires i < |w.members| == |v.members|
  {
    var m := w.members[i];
    !m.Done() && m.operation.Some? && m.operation.value in w.operations && w.operations[m.operation.value].Terminal() ==>
      || v.members[i].status == EndShown(w.operations[m.operation.value])
      || (v.members[i].status == Skipped && i in v.deleted)
  }

  /** Operations and nodes moved on, and at most row `i` was written. */
  ghost predicate OnlyRow(w: World, v: World, i: nat) {
    && i < |w.members| == |v.members| && v.members == w.members[i := v.members[i]]
    && Moved(w, v) && w.operations.Keys == v.operations.Keys
  }

  /** The node of member `i` has an active operation, of the campaign or of somebody else. */
  predicate Held(w: World, i: nat) {
    i in w.busy + w.stuck || exists o <- w.operations :: w.operations[o].member == i && !w.operations[o].Terminal()
  }

  /** It had one at some moment from then on. */
  predicate HeldSince(run: seq<World>, start: nat, i: nat) {
    exists k :: start <= k < |run| && Held(run[k], i)
  }

  /** The member got an operation, or was passed over with reason. */
  predicate Dispatched(w: World, i: nat, passed: bool) {
    && i < |w.members|
    && (w.members[i].operation.Some? || w.members[i].status == Skipped)
    && (w.members[i].status == Skipped && w.members[i].operation.None? ==> passed || i in w.deleted)
    && (passed ==> w.members[i].status == Skipped)
  }

  /** Refreshing never takes a row away from its operation, nor touches a finished one. */
  predicate KeepsRows(w: World, v: World) {
    && |v.members| == |w.members|
    && forall i :: 0 <= i < |w.members| ==>
         v.members[i].operation == w.members[i].operation && (w.members[i].Done() ==> v.members[i] == w.members[i])
  }

  /** Dispatching only writes rows without an operation. */
  predicate KeepsDispatched(w: World, v: World) {
    && |v.members| == |w.members|
    && forall i :: 0 <= i < |w.members| && w.members[i].operation.Some? ==> v.members[i] == w.members[i]
  }

  predicate Moved(w: World, v: World) {
    && v == w.(members := v.members, operations := v.operations, deleted := v.deleted, busy := v.busy, stuck := v.stuck,
               justCreated := v.justCreated, retried := v.retried)
    && w.deleted <= v.deleted && w.operations.Keys <= v.operations.Keys
    && forall o <- w.operations :: Progress(w.operations[o], v.operations[o])
  }

  lemma MovedFurther(u: World, w: World, v: World)
    requires Moved(u, w) && Moved(w, v)
    ensures Moved(u, v)
  {
    forall o <- u.operations
      ensures Progress(u.operations[o], v.operations[o])
    {
      assert Progress(u.operations[o], w.operations[o]) && Progress(w.operations[o], v.operations[o]);
    }
  }

  lemma RowAfterMove(u: World, w: World, v: World, i: nat)
    requires Moved(u, w) && u.members == w.members && u.operations.Keys == w.operations.Keys && OnlyRow(w, v, i)
    ensures OnlyRow(u, v, i)
  {
    MovedFurther(u, w, v);
  }

  lemma DispatchedStays(w: World, v: World, i: nat, passed: bool, run: seq<World>, longer: seq<World>, start: nat)
    requires Moved(w, v) && run <= longer && i < |w.members| == |v.members| && v.members[i] == w.members[i]
    requires Dispatched(w, i, passed) || HeldSince(run, start, i)
    ensures Dispatched(v, i, passed) || HeldSince(longer, start, i)
  {
    if k :| start <= k < |run| && Held(run[k], i) {
      assert Held(longer[k], i);
    }
  }

  lemma NoneQueuedAgain(w: World, v: World)
    requires Moved(w, v)
    ensures forall o <- w.operations | w.operations[o].status != Queued :: o in v.operations && v.operations[o].status != Queued
  {
    forall o <- w.operations | w.operations[o].status != Queued
      ensures o in v.operations && v.operations[o].status != Queued
    {
      assert Progress(w.operations[o], v.operations[o]);
    }
  }

  lemma HeldSinceEarlier(run: seq<World>, start: nat, earlier: nat, i: nat)
    requires earlier <= start
    ensures HeldSince(run, start, i) ==> HeldSince(run, earlier, i)
  {
  }

  lemma PlausibleStays(a: Operation, b: Operation, shown: OperationStatus)
    requires Plausible(a, shown) && Progress(a, b)
    ensures Plausible(b, shown)
  {
  }

  /** What the invariant says of one row. */
  lemma RowInv(plan: Plan, w: World, i: nat)
    requires Inv(plan, w) && i < |w.members|
    ensures var m := w.members[i];
      && (m.operation.Some? ==>
            m.operation.value in w.operations && w.operations[m.operation.value].member == i)
      && (m.Broken() || m.InFlight() ==> m.operation.Some?)
    ensures forall o <- w.operations :: w.operations[o].status == Running ==> w.operations[o].claimed
  {
    assert MemberInv(plan, w, i);
  }

  class Controller {
    const plan: Plan
    var status: CampaignStatus
    var current: int
    var members: seq<Member>
    var operations: map<nat, Operation>
    var deleted: set<nat>
    var busy: set<nat>
    var stuck: set<nat>
    var nextId: nat
    var justCreated: Option<nat>
    var retried: bool
    ghost var run: seq<World>

    function Now(): World
      reads this
    {
      World(status, current, members, operations, deleted, busy, stuck, justCreated, retried)
    }

    ghost predicate Valid()
      reads this
    {
      && WellFormed(plan) && Legal(plan, run) && run[|run| - 1] == Now() && Inv(plan, Now())
      && |members| == |plan.batches|
      && forall o <- operations :: o < nextId
    }

    constructor (plan: Plan)
      requires WellFormed(plan)
      ensures Valid() && Now() == Created(plan) && this.plan == plan
    {
      this.plan := plan;
      status, current, operations, deleted, nextId := CampaignQueued, -1, map[], {}, 0;
      members := seq(|plan.batches|, _ => Member(MemberPending, None));
      busy, stuck, justCreated, retried := {}, {}, None, false;
      run := [Created(plan)];
      new;
      CreatedInv(plan);
    }

    ghost method Commit()
      requires WellFormed(plan) && Legal(plan, run) && Inv(plan, run[|run| - 1]) && Step(plan, run[|run| - 1], Now())
      requires forall o <- operations :: o < nextId
      modifies this`run
      ensures Valid() && run == old(run) + [Now()]
    {
      StepKeepsInv(plan, run[|run| - 1], Now());
      ExtendLegal(plan, run, Now());
      run := run + [Now()];
    }

    /** Nodes work, leases expire, admins delete nodes and start operations of their own. */
    method Elsewhere()
      requires Valid()
      modifies this`operations, this`deleted, this`busy, this`stuck, this`run
      ensures Valid() && old(run) < run && Evolved(old(Now()), Now()) && Moved(old(Now()), Now())
    {
      hide Inv, Legal;
      var ops: map<nat, Operation>, gone: set<nat>, used: set<nat>, held: set<nat> := *, *, *, *;
      if Evolved(Now(), Now().(operations := ops, deleted := gone, busy := used, stuck := held)) {
        operations, deleted, busy, stuck := ops, gone, used, held;
      }
      assert Step(plan, old(Now()), Now());
      Commit();
    }

    /** One write of a member row. */
    method WriteMember(i: nat, m: Member) returns (o: Outcome)
      requires Valid() && i < |members| && MemberStep(plan, Now(), With(Now(), i, m), i)
      modifies this`members, this`run
      ensures Valid() && old(run) <= run
      ensures Now() == if o == Outcome.Failed then old(Now()) else With(old(Now()), i, m)
    {
      hide Inv, Legal, MemberStep;
      if * {
        return Outcome.Failed;
      }
      members := members[i := m];
      assert Step(plan, old(Now()), Now());
      Commit();
      o := *;
      if o == Outcome.Failed {
        o := Crashed;
      }
    }

    method WriteCampaign(s: CampaignStatus, batch: int) returns (o: Outcome)
      requires Valid()
      requires Step(plan, Now(), Now().(status := s, current := batch))
      modifies this`status, this`current, this`run
      ensures Valid() && old(run) <= run
      ensures o == Outcome.Failed ==> Now() == old(Now())
      ensures o != Outcome.Failed ==>
        Now() == old(Now()).(status := s, current := batch)
    {
      hide Inv, Legal, Step;
      if * {
        return Outcome.Failed;
      }
      status, current := s, batch;
      Commit();
      o := *;
      if o == Outcome.Failed {
        o := Crashed;
      }
    }

    /** The handler at work returns. */
    method Finished()
      requires Valid()
      modifies this`justCreated, this`retried, this`run
      ensures Valid() && old(run) <= run && Now() == old(Now()).(justCreated := None, retried := false)
    {
      hide Inv, Legal;
      justCreated, retried := None, false;
      assert Settle(old(Now()), Now());
      Commit();
    }

    /** Cancels a queued operation; a running one is only asked to stop. */
    method CancelQueued(id: nat)
      requires Valid() && id in operations
      modifies this`operations, this`run
      ensures Valid() && old(run) <= run && Moved(old(Now()), Now()) && operations.Keys == old(operations).Keys
      ensures members == old(members) && !operations[id].status.Queued?
    {
      hide Inv, Legal;
      if operations[id].status == Queued {
        operations := operations[id := operations[id].(status := Cancelled)];
      }
      assert Evolved(old(Now()), Now());
      Commit();
    }

    // ----- Reconcile, first half -----

    method RefreshMember(i: nat) returns (o: Outcome)
      requires Valid() && Active(Now()) && i < |members|
      modifies this`members, this`operations, this`deleted, this`busy, this`stuck, this`run
      ensures Valid() && old(run) <= run && OnlyRow(old(Now()), Now(), i) && KeepsRows(old(Now()), Now())
      ensures o == Done ==> Settled(old(Now()), Now(), i)
    {
      hide Inv, Legal, MemberStep, Progress;
      ghost var start := Now();
      SelfMoved(start);
      var m := members[i];
      RowInv(plan, Now(), i);
      if m.Done() {
        return Done;
      }
      Elsewhere();
      ghost var later := Now();
      if i in deleted {
        o := SkipGone(i);
        RowAfterMove(start, later, Now(), i);
        return;
      }
      if * {
        return Outcome.Failed; // the node could not be read
      }
      if m.operation.None? {
        return Done;
      }
      var tooLong: bool := *;
      o := ShowOperation(i, m.operation.value, tooLong);
      RowAfterMove(start, later, Now(), i);
      if o == Done {
        SettledStays(start, later, Now(), i, i);
      }
    }

    /** The node is deleted: ask its operation to stop, and skip the member. */
    method SkipGone(i: nat) returns (o: Outcome)
      requires Valid() && Active(Now()) && i < |members| && !members[i].Done() && i in deleted
      modifies this`members, this`operations, this`run
      ensures Valid() && old(run) <= run && OnlyRow(old(Now()), Now(), i)
      ensures members[i].operation == old(members)[i].operation
      ensures o == Done ==> members[i].status == Skipped
    {
      hide Inv, Legal, Progress;
      var m := members[i];
      RowInv(plan, Now(), i);
      ghost var start := Now();
      SelfMoved(start);
      if m.operation.Some? && m.InFlight() {
        if * {
          return Outcome.Failed;
        }
        CancelQueued(m.operation.value);
      }
      ghost var before := Now();
      assert SkipDeleted(Now(), With(Now(), i, m.(status := Skipped)), i);
      o := WriteMember(i, m.(status := Skipped));
      SelfMoved(before);
      RowAfterMove(start, before, Now(), i);
    }

    /** `tooLong`: it has been asked for ten minutes ago. */
    method ShowOperation(i: nat, id: nat, tooLong: bool) returns (o: Outcome)
      requires Valid() && Active(Now()) && i < |members| && !members[i].Done() && members[i].operation == Some(id)
      requires id in operations
      modifies this`members, this`operations, this`deleted, this`busy, this`stuck, this`run
      ensures Valid() && old(run) <= run && OnlyRow(old(Now()), Now(), i)
      ensures members[i].operation == old(members)[i].operation
      ensures o == Done ==> Settled(old(Now()), Now(), i)
      ensures o == Done && tooLong ==> operations[id].status != Queued
    {
      hide Inv, Legal, MemberStep;
      ghost var start := Now();
      var op, unrun;
      o, op, unrun := ReadOperation(i, id, tooLong);
      if o != Done {
        return;
      }
      ghost var later := Now();
      if unrun {
        o := SkipEnded(i, id);
        RowAfterMove(start, later, Now(), i);
      } else if members[i].status != Shows(ShownStatus(op)) {
        o := MirrorStatus(i, id, op);
        RowAfterMove(start, later, Now(), i);
      }
    }

    /** Reads the operation, and cancels it if it was queued for too long; `unrun` when it
        ended that way, or expired, without being run. */
    method ReadOperation(i: nat, id: nat, tooLong: bool) returns (o: Outcome, op: Operation, unrun: bool)
      requires Valid() && i < |members| && members[i].operation == Some(id) && id in operations
      modifies this`operations, this`deleted, this`busy, this`stuck, this`run
      ensures Valid() && old(run) <= run && Moved(old(Now()), Now()) && operations.Keys == old(operations).Keys
      ensures members == old(members) && o in {Done, Outcome.Failed}
      ensures o == Done && tooLong ==> operations[id].status != Queued
      ensures o == Done ==> Progress(old(operations)[id], op) && Progress(op, operations[id])
      ensures o == Done && unrun ==>
        || (op.status == Cancelled && !old(operations)[id].Terminal())
        || (op.status == Expired && !op.claimed)
      ensures o == Done && !unrun ==> (op.status == Running ==> op.claimed) && (op.status == Expired ==> op.claimed)
    {
      hide Inv, Legal, MemberStep;
      ghost var start := Now();
      RowInv(plan, Now(), i);
      op := operations[id];
      Elsewhere();
      if op.status == Queued && tooLong {
        // queued for too long; a claim can race with this cancellation
        if * {
          return Outcome.Failed, op, false;
        }
        ghost var later := Now();
        CancelQueued(id);
        MovedFurther(start, later, Now());
        op := operations[id];
        RowInv(plan, Now(), i);
        if op.status == Cancelled {
          return Done, op, true;
        }
      }
      return Done, op, op.status == Expired && !op.claimed;
    }

    method SkipEnded(i: nat, id: nat) returns (o: Outcome)
      requires Valid() && Active(Now()) && i < |members| && !members[i].Done() && members[i].operation == Some(id)
      requires id in operations
      requires operations[id].status == Cancelled || (operations[id].status == Expired && !operations[id].claimed)
      modifies this`members, this`run
      ensures Valid() && old(run) <= run && OnlyRow(old(Now()), Now(), i)
      ensures members[i].operation == old(members)[i].operation
      ensures o == Done ==> members[i].status == Skipped
    {
      hide Inv, Legal, Progress;
      ghost var start := Now();
      SelfMoved(start);
      assert SkipUnclaimed(Now(), With(Now(), i, members[i].(status := Skipped)), i);
      o := WriteMember(i, members[i].(status := Skipped));
    }

    method MirrorStatus(i: nat, id: nat, read: Operation) returns (o: Outcome)
      requires Valid() && Active(Now()) && i < |members| && !members[i].Done() && members[i].operation == Some(id)
      requires id in operations && Progress(read, operations[id])
      requires (read.status == Running ==> read.claimed) && (read.status == Expired ==> read.claimed)
      modifies this`members, this`run
      ensures Valid() && old(run) <= run && OnlyRow(old(Now()), Now(), i)
      ensures members[i].operation == old(members)[i].operation
      ensures o == Done ==> members[i].status == Shows(ShownStatus(read))
    {
      hide Inv, Legal, Progress;
      ghost var start := Now();
      SelfMoved(start);
      PlausibleStays(read, operations[id], ShownStatus(read));
      assert Mirror(Now(), With(Now(), i, members[i].(status := Shows(ShownStatus(read)))), i, ShownStatus(read));
      o := WriteMember(i, members[i].(status := Shows(ShownStatus(read))));
    }

    /** Every member row is brought up to date with its operation and its node. */
    method RefreshMembers() returns (o: Outcome)
      requires Valid() && Active(Now())
      modifies this`members, this`operations, this`deleted, this`busy, this`stuck, this`run
      ensures Valid() && old(run) <= run && Moved(old(Now()), Now()) && KeepsRows(old(Now()), Now())
      ensures o == Done ==> forall i :: 0 <= i < |members| ==> Settled(old(Now()), Now(), i)
    {
      hide Inv, Legal, Progress, Settled, Moved;
      ghost var start := Now();
      SelfMoved(start);
      var i := 0;
      while i < |members|
        modifies this`members, this`operations, this`deleted, this`busy, this`stuck, this`run
        invariant 0 <= i <= |members| == |start.members|
        invariant Valid() && old(run) <= run && Moved(start, Now()) && start.operations.Keys == operations.Keys
        invariant KeepsRows(start, Now())
        invariant forall j :: i <= j < |members| ==> members[j] == start.members[j]
        invariant forall j :: 0 <= j < i ==> Settled(start, Now(), j)
      {
        ghost var before := Now();
        o := RefreshMember(i);
        MovedFurther(start, before, Now());
        if o != Done {
          return;
        }
        forall j | 0 <= j <= i
          ensures Settled(start, Now(), j)
        {
          SettledStays(start, before, Now(), i, j);
        }
        i := i + 1;
      }
      return Done;
    }

    // ----- Reconcile, second half -----

    /** The store's creation: by key an existing operation is found, or refused when its
        deadline differs; otherwise the node must have no active operation. */
    method CreateNodeOperation(i: nat) returns (r: CreateResult)
      requires Valid() && Wanted(plan, Now(), i)
      modifies this`operations, this`justCreated, this`nextId, this`run
      ensures Valid() && old(run) <= run && Moved(old(Now()), Now())
      ensures members == old(members) && retried == old(retried)
      ensures r.Found? ==>
        && r.id in operations && operations[r.id].member == i && operations[r.id].retryOf == members[i].operation
        && r.status == operations[r.id].status
        && (status == CampaignPaused ==> justCreated == Some(r.id) && r.status == Queued && i !in old(busy) + old(stuck))
      ensures r.NodeBusy? ==> Now() == old(Now()) && Held(Now(), i)
    {
      hide Inv, Legal, Progress;
      SelfMoved(Now());
      if i in deleted {
        return CreateFailed;
      }
      if * {
        return CreateFailed;
      }
      if id :| id in operations && operations[id].member == i && operations[id].retryOf == members[i].operation {
        var sameDeadline: bool := *;
        if status == CampaignRunning && sameDeadline {
          return Found(id, operations[id].status);
        }
        return CreateFailed; // the key is used for a different request
      }
      if i in busy + stuck || exists p <- operations :: operations[p].member == i && !operations[p].Terminal() {
        return NodeBusy;
      }
      var id := nextId;
      operations := operations[id := Operation(i, members[i].operation, Queued, false)];
      justCreated, nextId := Some(id), nextId + 1;
      assert CreateOperation(plan, old(Now()), Now(), i, id);
      assert Step(plan, old(Now()), Now());
      Commit();
      return Found(id, Queued);
    }

    method AttachOperation(i: nat, id: nat, shown: OperationStatus) returns (o: Outcome)
      requires Valid() && Wanted(plan, Now(), i) && id in operations
      requires operations[id].member == i && operations[id].retryOf == members[i].operation
      requires Plausible(operations[id], shown)
      requires status == CampaignPaused ==> justCreated == Some(id) && shown == Queued
      modifies this`members, this`justCreated, this`retried, this`run
      ensures Valid() && old(run) <= run && Moved(old(Now()), Now())
      ensures o == Outcome.Failed ==> Now() == old(Now())
      ensures o != Outcome.Failed ==> members == old(members)[i := Member(Shows(shown), Some(id))]
      ensures o == Done && status == CampaignPaused ==> retried
    {
      hide Inv, Legal, Progress;
      SelfMoved(Now());
      if * {
        return Outcome.Failed;
      }
      members := members[i := Member(Shows(shown), Some(id))];
      justCreated, retried := None, status == CampaignPaused;
      assert Attach(plan, old(Now()), Now(), i, id, shown);
      assert MemberStep(plan, old(Now()), Now(), i);
      Commit();
      o := *;
      if o == Outcome.Failed {
        o := Crashed;
      }
    }

    /** `late`: the campaign was due before; `disabled`: the node is. */
    method DispatchMember(i: nat, late: bool, disabled: bool) returns (o: Outcome, progressed: bool)
      requires Valid() && status == CampaignRunning && Undispatched(plan, Now(), i)
      modifies this`members, this`operations, this`deleted, this`busy, this`stuck
      modifies this`justCreated, this`retried, this`nextId, this`run
      ensures Valid() && old(run) <= run && Moved(old(Now()), Now())
      ensures o == Done && progressed ==> members[i].status == Skipped || members[i].operation.Some?
      ensures members == old(members)[i := members[i]] && (o == Done && !progressed ==> members == old(members))
      ensures o == Done && (late || disabled) ==> members[i].status == Skipped
      ensures o == Done && members[i].status == Skipped ==> late || disabled || i in deleted
      ensures o == Done && !progressed ==> HeldSince(run, |old(run)|, i)
    {
      hide Inv, Legal, Progress, Moved;
      ghost var start := Now();
      SelfMoved(start);
      progressed := true;
      Elsewhere();
      if late || disabled || i in deleted {
        ghost var before := Now();
        assert MemberStep(plan, before, With(before, i, members[i].(status := Skipped)), i) by {
          assert SkipUndispatched(plan, before, With(before, i, members[i].(status := Skipped)), i);
        }
        o := WriteMember(i, members[i].(status := Skipped));
        RowWritten(before, Now(), i);
        MovedFurther(start, before, Now());
        return;
      }
      if * {
        return Outcome.Failed, false;
      }
      ghost var before := Now();
      var r := CreateNodeOperation(i);
      MovedFurther(start, before, Now());
      match r {
        case CreateFailed => return Outcome.Failed, false;
        case NodeBusy =>
          assert Held(run[|run| - 1], i);
          return Done, false;
        case Found(id, shown) =>
          if shown == Expired {
            return Outcome.Failed, false; // no member row can show it
          }
          RowInv(plan, Now(), i);
          before := Now();
          o := AttachOperation(i, id, shown);
          MovedFurther(start, before, Now());
      }
    }

    /** Dispatches what is left of the current batch: of every such member an operation is
        entered, or it is skipped for being late, disabled or deleted, or its node was held. */
    method DispatchBatch(late: nat -> bool, disabled: nat -> bool) returns (o: Outcome, createdAny: bool, waiting: bool)
      requires Valid() && status == CampaignRunning
      modifies this`members, this`operations, this`deleted, this`busy, this`stuck
      modifies this`justCreated, this`retried, this`nextId, this`run
      ensures Valid() && old(run) <= run && Moved(old(Now()), Now()) && KeepsDispatched(old(Now()), Now())
      ensures o == Done && !createdAny ==> members == old(members)
      ensures o == Done && !createdAny && !waiting ==> forall i :: 0 <= i < |members| ==> !Undispatched(plan, Now(), i)
      ensures o == Done ==> forall i: nat | Undispatched(plan, old(Now()), i) ::
        Dispatched(Now(), i, late(i) || disabled(i)) || HeldSince(run, |old(run)|, i)
    {
      hide Inv, Legal, Progress, Moved;
      ghost var start := Now();
      SelfMoved(start);
      createdAny, waiting := false, false;
      var i := 0;
      while i < |members|
        modifies this`members, this`operations, this`deleted, this`busy, this`stuck
        modifies this`justCreated, this`retried, this`nextId, this`run
        invariant 0 <= i <= |members| && status == CampaignRunning && current == start.current
        invariant Valid() && old(run) <= run && Moved(start, Now()) && KeepsDispatched(start, Now())
        invariant !createdAny ==> members == start.members
        invariant forall j :: i <= j < |members| ==> members[j] == start.members[j]
        invariant !createdAny && !waiting ==> forall j :: 0 <= j < i ==> !Undispatched(plan, Now(), j)
        invariant forall j: nat :: j < i && Undispatched(plan, start, j) ==>
          Dispatched(Now(), j, late(j) || disabled(j)) || HeldSince(run, |old(run)|, j)
      {
        if plan.batches[i] == current && members[i] == Member(MemberPending, None) {
          ghost var before := Now();
          var progressed;
          ghost var ran := run;
          o, progressed := DispatchMember(i, late(i), disabled(i));
          MovedFurther(start, before, Now());
          MovedKeepsCampaign(before, Now());
          if o != Done {
            return;
          }
          forall j: nat | j < i && Undispatched(plan, start, j)
            ensures Dispatched(Now(), j, late(j) || disabled(j)) || HeldSince(run, |old(run)|, j)
          {
            DispatchedStays(before, Now(), j, late(j) || disabled(j), ran, run, |old(run)|);
          }
          HeldSinceEarlier(run, |ran|, |old(run)|, i);
          createdAny, waiting := createdAny || progressed, waiting || !progressed;
        }
        i := i + 1;
      }
      o := Done;
    }

    /** When the batch is done, the next batch with a pending member starts; without one
        the campaign has succeeded. */
    method AdvanceBatch() returns (o: Outcome, more: bool)
      requires Valid() && status == CampaignRunning
      modifies this`status, this`current, this`run
      ensures Valid() && old(run) <= run
      ensures !BatchDone(plan, old(Now())) ==> o == Done && Now() == old(Now())
      ensures o == Done && BatchDone(plan, old(Now())) ==>
        || Finish(plan, old(Now()), Now())
        || (more && exists next :: Advance(plan, old(Now()), Now(), next))
      ensures more ==> o == Done && status == CampaignRunning
    {
      hide Inv, Legal;
      more := false;
      var i, next: int := 0, -1;
      while i < |members|
        invariant 0 <= i <= |members| == |plan.batches|
        invariant forall j :: 0 <= j < i && plan.batches[j] == current ==> members[j].Done()
        invariant forall j :: 0 <= j < i && PendingAbove(plan, Now(), j) ==> 0 <= next <= plan.batches[j]
        invariant next == -1 || exists j: nat :: j < i && PendingAbove(plan, Now(), j) && plan.batches[j] == next
      {
        if plan.batches[i] == current && !members[i].Done() {
          return Done, false;
        }
        if members[i].status == MemberPending && plan.batches[i] > current && (next < 0 || plan.batches[i] < next) {
          next := plan.batches[i];
          assert PendingAbove(plan, Now(), i);
        }
        i := i + 1;
      }
      if next < 0 {
        assert Finish(plan, Now(), Now().(status := CampaignSucceeded, current := current));
        o := WriteCampaign(CampaignSucceeded, current);
      } else {
        assert Advance(plan, Now(), Now().(status := CampaignRunning, current := next), next);
        o := WriteCampaign(CampaignRunning, next);
        more := o == Done;
      }
    }

    method FindBroken() returns (broken: bool)
      requires Valid()
      ensures broken <==> HasBroken(plan, Now())
    {
      hide Inv, Legal;
      broken := false;
      var i := 0;
      while i < |members|
        invariant 0 <= i <= |members| == |plan.batches|
        invariant broken <==> exists j :: 0 <= j < i && plan.batches[j] == current && members[j].Broken()
      {
        broken := broken || (plan.batches[i] == current && members[i].Broken());
        i := i + 1;
      }
    }

    /** One round for a running campaign. */
    method ReconcileBatch() returns (o: Outcome, more: bool)
      requires Valid() && status == CampaignRunning
      modifies this
      ensures Valid() && old(run) <= run
      ensures o == Done && HasBroken(plan, old(Now())) ==> Pause(old(Now()), Now())
      ensures KeepsDispatched(old(Now()), Now()) && Advanced(old(Now()), Now())
      ensures o == Done && more ==> status == CampaignRunning
    {
      hide Inv, Legal, Moved, HasBroken;
      more := false;
      ghost var start := Now();
      SelfMoved(start);
      MovedIsAdvanced(start, start);
      var broken := FindBroken();
      if broken {
        assert Pause(Now(), Now().(status := CampaignPaused, current := current));
        o := WriteCampaign(CampaignPaused, current);
        return;
      }
      var createdAny, waiting;
      var late: nat -> bool, disabled: nat -> bool := *, *;
      o, createdAny, waiting := DispatchBatch(late, disabled);
      MovedIsAdvanced(start, Now());
      if o != Done || createdAny || waiting {
        return;
      }
      o, more := AdvanceBatch();
    }

    /** Brings the campaign forward as far as it goes at this moment. */
    method Reconcile() returns (o: Outcome)
      requires Valid()
      modifies this
      ensures Valid() && old(run) <= run
      ensures !Active(old(Now())) ==> o == Done && Now() == old(Now())
      ensures o == Done && Active(old(Now())) ==>
        |members| == |old(members)| && forall i :: 0 <= i < |members| ==> Settled(old(Now()), Now(), i)
    {
      hide Inv, Legal, Moved, Settled, KeepsRows, KeepsDispatched, Advanced;
      ghost var start := Now();
      var iteration := 0;
      while iteration < 4
        invariant Valid() && old(run) <= run && |members| == |start.members|
        invariant iteration == 0 ==> Now() == start
        invariant !Active(start) ==> Now() == start
        invariant iteration > 0 ==> AllSettled(start, Now())
      {
        if !Active(Now()) {
          return Done;
        }
        ghost var before := Now();
        o := RefreshMembers();
        if o != Done {
          return;
        }
        RefreshKeepsSettled(start, before, Now(), iteration);
        ghost var refreshed := Now();
        if status == CampaignQueued {
          assert Begin(Now(), Now().(status := CampaignRunning, current := 0));
          o := WriteCampaign(CampaignRunning, 0);
          if o != Done {
            return;
          }
          BeginKeepsSettled(start, refreshed, Now());
        } else {
          var more;
          o, more := ReconcileBatch();
          BatchKeepsSettled(start, refreshed, Now());
          if o != Done || !more {
            return;
          }
        }
        iteration := iteration + 1;
      }
      return Done;
    }

    // ----- Resume and cancel -----

    method RetryMember(i: nat) returns (o: Outcome)
      requires Valid() && status == CampaignPaused && Retryable(plan, Now(), i)
      modifies this`members, this`operations, this`justCreated, this`retried, this`nextId, this`run
      ensures Valid() && old(run) <= run && Moved(old(Now()), Now())
      ensures members == old(members)[i := members[i]]
      ensures o == Done ==> retried && members[i].status == Shows(Queued)
    {
      hide Inv, Legal, Progress, Moved;
      ghost var start := Now();
      var r := CreateNodeOperation(i);
      if !r.Found? {
        return Outcome.Failed;
      }
      ghost var before := Now();
      MovedKeepsCampaign(start, before);
      o := AttachOperation(i, r.id, r.status);
      MovedFurther(start, before, Now());
    }

    /** Retries every broken member of the current batch, then sets the campaign running. */
    method RetryBroken() returns (r: RequestResult)
      requires Valid() && status == CampaignPaused && !retried
      modifies this`status, this`members, this`operations, this`justCreated, this`retried, this`nextId, this`run
      ensures Valid() && old(run) <= run
      ensures r == Conflict <==> !HasBroken(plan, old(Now()))
      ensures r == Conflict ==> Now() == old(Now())
      ensures r == Accepted ==> status == CampaignRunning && !HasBroken(plan, Now()) && current == old(current)
    {
      hide Inv, Legal, Progress, Moved;
      ghost var start := Now();
      SelfMoved(start);
      var i, count := 0, 0;
      while i < |members|
        modifies this`members, this`operations, this`justCreated, this`retried, this`nextId, this`run
        invariant 0 <= i <= |members| == |start.members| == |plan.batches|
        invariant Valid() && old(run) <= run && status == CampaignPaused && current == start.current
        invariant Moved(start, Now()) && (count > 0 <==> retried) && (count == 0 ==> Now() == start)
        invariant forall j :: 0 <= j < i && plan.batches[j] == current ==> !members[j].Broken()
        invariant forall j :: i <= j < |members| ==> members[j] == start.members[j]
        invariant count > 0 ==> HasBroken(plan, start)
      {
        if plan.batches[i] == current && members[i].Broken() {
          RowInv(plan, Now(), i);
          assert start.members[i].Broken();
          ghost var before := Now();
          var o := RetryMember(i);
          MovedFurther(start, before, Now());
          MovedKeepsCampaign(before, Now());
          if o != Done {
            return RequestFailed;
          }
          count := count + 1;
        }
        i := i + 1;
      }
      if count == 0 {
        return Conflict;
      }
      var o := WriteRunning();
      return if o == Done then Accepted else RequestFailed;
    }

    method WriteRunning() returns (o: Outcome)
      requires Valid() && Resume(plan, Now(), Now().(status := CampaignRunning, retried := false))
      modifies this`status, this`retried, this`run
      ensures Valid() && old(run) <= run
      ensures Now() == if o == Outcome.Failed then old(Now()) else old(Now()).(status := CampaignRunning, retried := false)
    {
      hide Inv, Legal, Resume;
      if * {
        return Outcome.Failed;
      }
      status, retried := CampaignRunning, false;
      assert Step(plan, old(Now()), Now());
      Commit();
      o := *;
      if o == Outcome.Failed {
        o := Crashed;
      }
    }

    method ResumeCampaign() returns (r: RequestResult)
      requires Valid()
      modifies this
      ensures Valid() && old(run) <= run && justCreated.None? && !retried
      ensures r == Conflict <==> old(status) != CampaignPaused || !HasBroken(plan, old(Now()))
      ensures r == Conflict ==> status == old(status) && members == old(members) && operations == old(operations)
      ensures r == Accepted ==> status == CampaignRunning && !HasBroken(plan, Now())
    {
      hide Inv, Legal, HasBroken;
      ghost var start := Now();
      Finished();
      SameRows(plan, start, Now());
      if status != CampaignPaused {
        return Conflict;
      }
      r := RetryBroken();
      ghost var end := Now();
      Finished();
      SameRows(plan, end, Now());
    }

    /** `reached`: for which members asking to cancel the operation succeeds. */
    method CancelCampaign(reached: nat -> bool) returns (r: RequestResult)
      requires Valid()
      modifies this
      ensures Valid() && old(run) <= run
      ensures r == Conflict <==> old(status) == CampaignSucceeded || old(status) == CampaignCancelled
      ensures r == Accepted ==> status == CampaignCancelled && current == old(current) && members == old(members)
      ensures r == Accepted ==> forall i: nat | i < |members| && members[i].InFlight() && reached(i) ::
        members[i].operation.Some? && members[i].operation.value in operations
        && operations[members[i].operation.value].status != Queued
    {
      hide Inv, Legal, Moved;
      if status == CampaignSucceeded || status == CampaignCancelled {
        return Conflict;
      }
      assert Cancel(Now(), Now().(status := CampaignCancelled, current := current));
      var o := WriteCampaign(CampaignCancelled, current);
      if o != Done {
        return RequestFailed;
      }
      var i := 0;
      while i < |members|
        modifies this`operations, this`run
        invariant Valid() && old(run) <= run && i <= |members|
        invariant forall j: nat | j < i && members[j].InFlight() && reached(j) ::
          members[j].operation.Some? && members[j].operation.value in operations
          && operations[members[j].operation.value].status != Queued
      {
        RowInv(plan, Now(), i);
        if members[i].operation.Some? && members[i].InFlight() {
          if reached(i) { // an error here is ignored
            ghost var before := Now();
            CancelQueued(members[i].operation.value);
            NoneQueuedAgain(before, Now());
          }
        }
        i := i + 1;
      }
      return Accepted;
    }
  }

  /** Operations went on, and deletions were added. */
  predicate Advanced(w: World, v: World) {
    && w.deleted <= v.deleted && w.operations.Keys <= v.operations.Keys
    && forall o <- w.operations :: Progress(w.operations[o], v.operations[o])
  }

  /** Rows of operations that had ended by `start` say so. */
  predicate AllSettled(start: World, w: World) {
    && |start.members| == |w.members| && Advanced(start, w)
    && forall i :: 0 <= i < |w.members| ==>
         && (start.members[i].operation.Some? ==> w.members[i].operation == start.members[i].operation)
         && Settled(start, w, i)
  }

  lemma RefreshKeepsSettled(start: World, before: World, after: World, iteration: nat)
    requires |start.members| == |before.members| && Moved(before, after) && KeepsRows(before, after)
    requires forall i :: 0 <= i < |after.members| ==> Settled(before, after, i)
    requires if iteration == 0 then before == start else AllSettled(start, before)
    ensures AllSettled(start, after)
  {
    if iteration > 0 {
      AdvancedFurther(start, before, after);
    }
    forall i | 0 <= i < |after.members|
      ensures start.members[i].operation.Some? ==> after.members[i].operation == start.members[i].operation
      ensures Settled(start, after, i)
    {
      assert Settled(before, after, i);
      var m := start.members[i];
      if iteration > 0 && m.operation.Some? && m.operation.value in start.operations {
        assert Progress(start.operations[m.operation.value], before.operations[m.operation.value]);
        assert Settled(start, before, i);
      }
    }
  }

  lemma BeginKeepsSettled(start: World, w: World, v: World)
    requires AllSettled(start, w) && v == w.(status := v.status, current := v.current)
    ensures AllSettled(start, v)
  {
    assert forall i :: 0 <= i < |w.members| ==> Settled(start, w, i);
  }

  lemma BatchKeepsSettled(start: World, w: World, v: World)
    requires AllSettled(start, w) && KeepsDispatched(w, v) && Advanced(w, v)
    ensures AllSettled(start, v)
  {
    AdvancedFurther(start, w, v);
    forall i | 0 <= i < |v.members|
      ensures start.members[i].operation.Some? ==> v.members[i].operation == start.members[i].operation
      ensures Settled(start, v, i)
    {
      assert Settled(start, w, i);
    }
  }

  lemma MovedIsAdvanced(w: World, v: World)
    requires Moved(w, v)
    ensures Advanced(w, v)
  {
  }

  lemma AdvancedFurther(u: World, w: World, v: World)
    requires Advanced(u, w) && Advanced(w, v)
    ensures Advanced(u, v)
  {
    forall o <- u.operations
      ensures Progress(u.operations[o], v.operations[o])
    {
      assert Progress(u.operations[o], w.operations[o]) && Progress(w.operations[o], v.operations[o]);
    }
  }

  lemma SelfMoved(w: World)
    ensures Moved(w, w)
  {
  }

  lemma MovedKeepsCampaign(w: World, v: World)
    requires Moved(w, v)
    ensures v.status == w.status && v.current == w.current
  {
  }

  lemma SameRows(plan: Plan, w: World, v: World)
    requires v.members == w.members && v.current == w.current
    ensures HasBroken(plan, v) <==> HasBroken(plan, w)
  {
  }

  lemma RowWritten(w: World, v: World, i: nat)
    requires i < |w.members| && (v == w || exists m :: v == With(w, i, m))
    ensures Moved(w, v)
  {
  }

  /** Refreshing row `i` settles it and leaves the settled rows settled. */
  lemma SettledStays(start: World, before: World, after: World, i: nat, j: nat)
    requires Moved(start, before) && OnlyRow(before, after, i) && |start.members| == |before.members|
    requires j <= i && start.members[i] == before.members[i]
    requires if j == i then Settled(before, after, i) else Settled(start, before, j)
    ensures Settled(start, after, j)
  {
    var m := start.members[j];
    if m.operation.Some? && m.operation.value in start.operations {
      assert Progress(start.operations[m.operation.value], before.operations[m.operation.value]);
    }
  }
}
