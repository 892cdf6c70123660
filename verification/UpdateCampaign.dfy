/**
 Staged update campaigns: the rows of one campaign, the node operations it created,
 and the single writes that change them. Between any two writes operations make
 progress on their nodes, nodes are deleted, and the server may crash.
 */
module CampaignRules {
  import opened Common

  datatype CampaignStatus = CampaignQueued | CampaignRunning | CampaignPaused | CampaignSucceeded | CampaignCancelled

  datatype OperationStatus = Queued | Running | Succeeded | Failed | Cancelled | Expired

  /** `member` is the index of the campaign member the operation was created for. With
      `retryOf` it makes up the idempotency key. */
  datatype Operation = Operation(member: nat, retryOf: Option<nat>, status: OperationStatus, claimed: bool)
  {
    predicate Terminal() {
      !status.Queued? && !status.Running?
    }
  }

  datatype MemberStatus = MemberPending | Skipped | Shows(status: OperationStatus)

  /** A member row shows a status of its operation; it cannot show `Expired`. */
  datatype Member = Member(status: MemberStatus, operation: Option<nat>)
  {
    predicate Done() {
      status == Skipped || status == Shows(Succeeded)
    }

    predicate Broken() {
      status == Shows(OperationStatus.Failed) || status == Shows(Cancelled)
    }

    predicate InFlight() {
      status == Shows(Queued) || status == Shows(Running)
    }
  }

  /** `busy` and `stuck` are the nodes of members that are held by an active operation of
      somebody else, one that can still end or, as `StuckOperations` shows, cannot: it was asked to cancel and
      its lease ran out. Two parts are not durable but belong to the handler at work: the
      operation it just created, and whether it has replaced a failed one. */
  datatype World = World(
    status: CampaignStatus,
    current: int,
    members: seq<Member>,
    operations: map<nat, Operation>,
    deleted: set<nat>,
    busy: set<nat>,
    stuck: set<nat>,
    justCreated: Option<nat>,
    retried: bool)

  /** The batch of every member and the size of a batch never change. */
  datatype Plan = Plan(batches: seq<nat>, batchSize: nat)

  function InBatch(plan: Plan, batch: int): set<nat> {
    set i: nat | i < |plan.batches| && plan.batches[i] == batch
  }

  ghost predicate WellFormed(plan: Plan) {
    && |InBatch(plan, 0)| == 1
    && forall batch: nat :: |InBatch(plan, batch)| <= (if batch == 0 then 1 else plan.batchSize)
  }

  // ----- What a member row may say about its operation -----

  /** An operation that expired after it was claimed counts as failed. */
  function ShownStatus(o: Operation): OperationStatus {
    if o.status == Expired then OperationStatus.Failed else o.status
  }

  /** `shown` was true of `o` when it was read: a terminal status still is. */
  predicate Plausible(o: Operation, shown: OperationStatus) {
    match shown
    case Queued => true
    case Running => o.claimed
    case Succeeded => o.status == Succeeded
    case Cancelled => o.status == Cancelled
    case Failed => o.status == OperationStatus.Failed || (o.status == Expired && o.claimed)
    case Expired => false
  }

  predicate Progress(a: Operation, b: Operation) {
    || a == b
    || (&& a.member == b.member && a.retryOf == b.retryOf && (a.claimed ==> b.claimed)
        && !a.Terminal() && b.status != Queued && (b.status == Running ==> b.claimed))
  }

  predicate NoneActive(w: World, i: nat) {
    forall o <- w.operations :: w.operations[o].member == i ==> w.operations[o].Terminal()
  }

  /** Operations make progress, nodes are deleted, and others use the nodes too, each for one
      operation at a time. */
  predicate Evolved(w: World, v: World) {
    && v == w.(operations := v.operations, deleted := v.deleted, busy := v.busy, stuck := v.stuck)
    && w.deleted <= v.deleted && w.stuck <= v.stuck
    && v.operations.Keys == w.operations.Keys
    && (forall o <- w.operations :: Progress(w.operations[o], v.operations[o]))
    && forall i <- v.busy + v.stuck :: i in w.busy + w.stuck || NoneActive(v, i)
  }

  // ----- The writes -----

  function With(w: World, i: nat, m: Member): World
    requires i < |w.members|
  {
    w.(members := w.members[i := m])
  }

  predicate Active(w: World) {
    w.status == CampaignQueued || w.status == CampaignRunning
  }

  predicate SkipDeleted(w: World, v: World, i: nat) {
    && Active(w) && i < |w.members| && !w.members[i].Done() && i in w.deleted
    && v == With(w, i, w.members[i].(status := Skipped))
  }

  /** The operation ended without being run: cancelled, or expired unclaimed. */
  predicate SkipUnclaimed(w: World, v: World, i: nat) {
    && Active(w) && i < |w.members| && !w.members[i].Done()
    && w.members[i].operation.Some? && w.members[i].operation.value in w.operations
    && (var o := w.operations[w.members[i].operation.value];
        o.status == Cancelled || (o.status == Expired && !o.claimed))
    && v == With(w, i, w.members[i].(status := Skipped))
  }

  predicate Mirror(w: World, v: World, i: nat, shown: OperationStatus) {
    && Active(w) && i < |w.members| && !w.members[i].Done()
    && w.members[i].operation.Some? && w.members[i].operation.value in w.operations
    && Plausible(w.operations[w.members[i].operation.value], shown)
    && v == With(w, i, w.members[i].(status := Shows(shown)))
  }

  predicate Begin(w: World, v: World) {
    w.status == CampaignQueued && v == w.(status := CampaignRunning, current := 0)
  }

  predicate Pause(w: World, v: World) {
    w.status == CampaignRunning && v == w.(status := CampaignPaused)
  }

  predicate Undispatched(plan: Plan, w: World, i: nat) {
    && i < |w.members| && i < |plan.batches| && plan.batches[i] == w.current
    && w.members[i] == Member(MemberPending, None)
  }

  /** Too late to dispatch, or the node is deleted or disabled. */
  predicate SkipUndispatched(plan: Plan, w: World, v: World, i: nat) {
    && w.status == CampaignRunning && Undispatched(plan, w, i)
    && v == With(w, i, w.members[i].(status := Skipped))
  }

  predicate Retryable(plan: Plan, w: World, i: nat) {
    && i < |w.members| && i < |plan.batches| && plan.batches[i] == w.current
    && w.members[i].Broken() && w.members[i].operation.Some?
  }

  /** A first operation of the running batch, or the retry of a broken one while paused. */
  predicate Wanted(plan: Plan, w: World, i: nat) {
    || (w.status == CampaignRunning && Undispatched(plan, w, i))
    || (w.status == CampaignPaused && Retryable(plan, w, i))
  }

  predicate KeyTaken(w: World, i: nat)
    requires i < |w.members|
  {
    exists o <- w.operations :: w.operations[o].member == i && w.operations[o].retryOf == w.members[i].operation
  }

  /** The node exists, the key is new, and the node has no other active operation. */
  predicate CreateOperation(plan: Plan, w: World, v: World, i: nat, o: nat) {
    && Wanted(plan, w, i) && i !in w.deleted && !KeyTaken(w, i)
    && o !in w.operations && NoneActive(w, i) && i !in w.busy + w.stuck
    && v == w.(operations := w.operations[o := Operation(i, w.members[i].operation, Queued, false)],
               justCreated := Some(o))
  }

  /** The operation is entered in the member's row. A first operation left over from an
      earlier crash is found by its key; a retry is not, since its deadline is new. */
  predicate Attach(plan: Plan, w: World, v: World, i: nat, o: nat, shown: OperationStatus) {
    && Wanted(plan, w, i) && (w.status == CampaignPaused ==> w.justCreated == Some(o) && shown == Queued)
    && o in w.operations && w.operations[o].member == i && w.operations[o].retryOf == w.members[i].operation
    && Plausible(w.operations[o], shown)
    && v == With(w, i, Member(Shows(shown), Some(o))).(justCreated := None, retried := w.status == CampaignPaused)
  }

  predicate BatchDone(plan: Plan, w: World) {
    forall i :: 0 <= i < |w.members| && i < |plan.batches| && plan.batches[i] == w.current ==> w.members[i].Done()
  }

  predicate PendingAbove(plan: Plan, w: World, i: nat) {
    i < |w.members| && i < |plan.batches| && plan.batches[i] > w.current && w.members[i].status == MemberPending
  }

  ghost predicate Advance(plan: Plan, w: World, v: World, next: nat) {
    && w.status == CampaignRunning && BatchDone(plan, w)
    && (exists i: nat :: PendingAbove(plan, w, i) && plan.batches[i] == next)
    && (forall i: nat :: PendingAbove(plan, w, i) ==> next <= plan.batches[i])
    && v == w.(current := next)
  }

  ghost predicate Finish(plan: Plan, w: World, v: World) {
    && w.status == CampaignRunning && BatchDone(plan, w) && (forall i: nat :: !PendingAbove(plan, w, i))
    && v == w.(status := CampaignSucceeded)
  }

  /** Some member of the current batch failed or was cancelled. */
  predicate HasBroken(plan: Plan, w: World) {
    exists i :: 0 <= i < |w.members| && i < |plan.batches| && plan.batches[i] == w.current && w.members[i].Broken()
  }

  /** Every broken member was retried, and there was one. */
  predicate Resume(plan: Plan, w: World, v: World) {
    && w.status == CampaignPaused && w.retried && !HasBroken(plan, w)
    && v == w.(status := CampaignRunning, retried := false)
  }

  /** A handler returns or its process dies. */
  predicate Settle(w: World, v: World) {
    v == w.(justCreated := None, retried := false)
  }

  predicate Cancel(w: World, v: World) {
    w.status != CampaignSucceeded && w.status != CampaignCancelled && v == w.(status := CampaignCancelled)
  }

  ghost predicate MemberStep(plan: Plan, w: World, v: World, i: nat) {
    || SkipDeleted(w, v, i) || SkipUnclaimed(w, v, i) || (exists shown :: Mirror(w, v, i, shown))
    || SkipUndispatched(plan, w, v, i) || (exists o, shown :: Attach(plan, w, v, i, o, shown))
  }

  ghost predicate Step(plan: Plan, w: World, v: World) {
    || Evolved(w, v) || Begin(w, v) || Pause(w, v) || Resume(plan, w, v) || Settle(w, v) || Cancel(w, v)
    || (exists i :: MemberStep(plan, w, v, i))
    || (exists i, o :: CreateOperation(plan, w, v, i, o))
    || (exists next :: Advance(plan, w, v, next)) || Finish(plan, w, v)
  }

  function Created(plan: Plan): World {
    World(CampaignQueued, -1, seq(|plan.batches|, _ => Member(MemberPending, None)), map[], {}, {}, {}, None, false)
  }

  ghost predicate Legal(plan: Plan, run: seq<World>) {
    && run != [] && run[0] == Created(plan)
    && forall i :: 0 < i < |run| ==> Step(plan, run[i - 1], run[i])
  }

  // ----- Invariant -----

  /** What member `i` may look like while the campaign stands at batch `current`. */
  predicate MemberInv(plan: Plan, w: World, i: nat)
    requires i < |w.members| == |plan.batches|
  {
    var m := w.members[i];
    && (plan.batches[i] < w.current ==> m.Done())
    && (plan.batches[i] > w.current ==> m.operation.None? && (m.status == MemberPending || m.status == Skipped))
    && (m.status == MemberPending ==> m.operation.None?)
    && (m.status.Shows? ==> m.operation.Some?)
    && (m.operation.Some? ==> m.operation.value in w.operations && Agrees(w, i, m.status, w.operations[m.operation.value]))
  }

  /** A member is shown as what its operation was, and never skipped while its
      operation runs, unless its node was deleted. */
  predicate Agrees(w: World, i: nat, s: MemberStatus, o: Operation) {
    && o.member == i
    && (s.Shows? ==> Plausible(o, s.status))
    && (s == Skipped ==> i in w.deleted || o.status == Cancelled || o.status == Expired)
  }

  predicate Inv(plan: Plan, w: World) {
    && |w.members| == |plan.batches|
    && (w.status == CampaignQueued ==> w.current == -1)
    && (w.status == CampaignRunning || w.status == CampaignPaused || w.status == CampaignSucceeded ==>
          exists i :: 0 <= i < |plan.batches| && plan.batches[i] == w.current)
    && (forall i :: 0 <= i < |w.members| ==> MemberInv(plan, w, i))
    && (forall o <- w.operations ::
          && w.operations[o].member < |plan.batches| && plan.batches[w.operations[o].member] <= w.current
          && (w.operations[o].status == Running ==> w.operations[o].claimed))
    && (w.status == CampaignSucceeded ==> forall i :: 0 <= i < |w.members| ==> w.members[i].Done())
  }

  lemma CreatedInv(plan: Plan)
    ensures Inv(plan, Created(plan))
  {
  }

  lemma EvolvedKeepsInv(plan: Plan, w: World, v: World)
    requires Inv(plan, w) && Evolved(w, v)
    ensures Inv(plan, v)
  {
    forall i | 0 <= i < |v.members|
      ensures MemberInv(plan, v, i)
    {
      assert MemberInv(plan, w, i);
      if v.members[i].operation.Some? {
        assert Progress(w.operations[v.members[i].operation.value], v.operations[v.members[i].operation.value]);
      }
    }
    forall o <- v.operations
      ensures v.operations[o].member < |plan.batches| && plan.batches[v.operations[o].member] <= v.current
      ensures v.operations[o].status == Running ==> v.operations[o].claimed
    {
      assert Progress(w.operations[o], v.operations[o]);
    }
  }

  /** A row written so that it still agrees with its operation. */
  lemma WriteKeepsInv(plan: Plan, w: World, v: World, i: nat)
    requires Inv(plan, w) && i < |w.members| == |v.members| && v.members == w.members[i := v.members[i]]
    requires v == w.(members := v.members, justCreated := v.justCreated, retried := v.retried)
    requires MemberInv(plan, v, i) && (w.members[i].Done() ==> v.members[i].Done())
    ensures Inv(plan, v)
  {
    forall j | 0 <= j < |v.members|
      ensures MemberInv(plan, v, j)
    {
      assert MemberInv(plan, w, j);
    }
  }

  lemma SkipKeepsInv(plan: Plan, w: World, v: World, i: nat)
    requires Inv(plan, w) && (SkipDeleted(w, v, i) || SkipUnclaimed(w, v, i) || SkipUndispatched(plan, w, v, i))
    ensures Inv(plan, v)
  {
    assert MemberInv(plan, w, i);
    assert MemberInv(plan, v, i);
    WriteKeepsInv(plan, w, v, i);
  }

  lemma MirrorKeepsInv(plan: Plan, w: World, v: World, i: nat, shown: OperationStatus)
    requires Inv(plan, w) && Mirror(w, v, i, shown)
    ensures Inv(plan, v)
  {
    assert MemberInv(plan, w, i);
    assert MemberInv(plan, v, i);
    WriteKeepsInv(plan, w, v, i);
  }

  lemma AttachKeepsInv(plan: Plan, w: World, v: World, i: nat, o: nat, shown: OperationStatus)
    requires Inv(plan, w) && Attach(plan, w, v, i, o, shown)
    ensures Inv(plan, v)
  {
    assert MemberInv(plan, w, i);
    assert MemberInv(plan, v, i);
    WriteKeepsInv(plan, w, v, i);
  }

  lemma MemberStepKeepsInv(plan: Plan, w: World, v: World, i: nat)
    requires Inv(plan, w) && MemberStep(plan, w, v, i)
    ensures Inv(plan, v)
  {
    hide Inv, SkipDeleted, SkipUnclaimed, SkipUndispatched, Mirror, Attach;
    if shown :| Mirror(w, v, i, shown) {
      MirrorKeepsInv(plan, w, v, i, shown);
    } else if o, shown :| Attach(plan, w, v, i, o, shown) {
      AttachKeepsInv(plan, w, v, i, o, shown);
    } else {
      SkipKeepsInv(plan, w, v, i);
    }
  }

  lemma CreateKeepsInv(plan: Plan, w: World, v: World, i: nat, o: nat)
    requires Inv(plan, w) && CreateOperation(plan, w, v, i, o)
    ensures Inv(plan, v)
  {
    forall j | 0 <= j < |v.members|
      ensures MemberInv(plan, v, j)
    {
      assert MemberInv(plan, w, j);
    }
  }

  lemma AdvanceKeepsInv(plan: Plan, w: World, v: World, next: nat)
    requires Inv(plan, w) && Advance(plan, w, v, next)
    ensures Inv(plan, v)
  {
    var first: nat :| PendingAbove(plan, w, first) && plan.batches[first] == next;
    forall j | 0 <= j < |v.members|
      ensures MemberInv(plan, v, j)
    {
      assert MemberInv(plan, w, j);
      assert !PendingAbove(plan, w, j) || next <= plan.batches[j];
    }
  }

  lemma FinishKeepsInv(plan: Plan, w: World, v: World)
    requires Inv(plan, w) && Finish(plan, w, v)
    ensures Inv(plan, v)
  {
    forall j | 0 <= j < |v.members|
      ensures MemberInv(plan, v, j) && v.members[j].Done()
    {
      assert MemberInv(plan, w, j);
      assert !PendingAbove(plan, w, j);
    }
  }

  lemma StatusKeepsInv(plan: Plan, w: World, v: World)
    requires WellFormed(plan) && Inv(plan, w)
    requires Begin(w, v) || Pause(w, v) || Resume(plan, w, v) || Settle(w, v) || Cancel(w, v)
    ensures Inv(plan, v)
  {
    forall j | 0 <= j < |v.members|
      ensures MemberInv(plan, v, j)
    {
      assert MemberInv(plan, w, j);
    }
    if Begin(w, v) {
      assert InBatch(plan, 0) != {};
      var canary :| canary in InBatch(plan, 0);
    }
  }

  lemma StepKeepsInv(plan: Plan, w: World, v: World)
    requires WellFormed(plan) && Inv(plan, w) && Step(plan, w, v)
    ensures Inv(plan, v)
  {
    hide Inv;
    if Evolved(w, v) {
      EvolvedKeepsInv(plan, w, v);
    } else if i :| MemberStep(plan, w, v, i) {
      MemberStepKeepsInv(plan, w, v, i);
    } else if i, o :| CreateOperation(plan, w, v, i, o) {
      CreateKeepsInv(plan, w, v, i, o);
    } else if next :| Advance(plan, w, v, next) {
      AdvanceKeepsInv(plan, w, v, next);
    } else if Finish(plan, w, v) {
      FinishKeepsInv(plan, w, v);
    } else {
      StatusKeepsInv(plan, w, v);
    }
  }

  lemma {:induction false} RunInv(plan: Plan, run: seq<World>, n: nat)
    requires WellFormed(plan) && Legal(plan, run) && n < |run|
    ensures Inv(plan, run[n])
  {
    if n == 0 {
      CreatedInv(plan);
    } else {
      RunInv(plan, run, n - 1);
      StepKeepsInv(plan, run[n - 1], run[n]);
    }
  }

  // ----- Main results -----

  function InFlight(w: World): set<nat> {
    set i: nat | i < |w.members| && w.members[i].InFlight()
  }

  function LiveOperations(w: World): set<nat> {
    set o | o in w.operations && !w.operations[o].Terminal()
  }

  /** The operation is entered in its member's row. */
  predicate Attached(w: World, o: nat) {
    && o in w.operations && w.operations[o].member < |w.members|
    && w.members[w.operations[o].member].operation == Some(o)
  }

  lemma {:induction false} SubsetCardinality<T>(a: set<T>, b: set<T>)
    requires a <= b
    ensures |a| <= |b|
  {
    if a != {} {
      var x :| x in a;
      SubsetCardinality(a - {x}, b - {x});
    }
  }

  /** In every state of every run: batches before the current one are done, those after
      it are untouched, what is in flight lies in the current batch and fits one batch,
      and a succeeded campaign has no member left. */
  lemma CampaignIsStaged(plan: Plan, run: seq<World>, n: nat)
    requires WellFormed(plan) && Legal(plan, run) && n < |run|
    ensures var w := run[n];
      && |w.members| == |plan.batches|
      && (forall i :: 0 <= i < |w.members| && plan.batches[i] < w.current ==> w.members[i].Done())
      && (forall i :: 0 <= i < |w.members| && plan.batches[i] > w.current ==>
            w.members[i].operation.None? && (w.members[i].status == MemberPending || w.members[i].status == Skipped))
      && (forall i <- InFlight(w) :: plan.batches[i] == w.current)
      && |InFlight(w)| <= (if plan.batchSize < 1 then 1 else plan.batchSize)
    ensures run[n].status == CampaignRunning || run[n].status == CampaignPaused ==> InBatch(plan, run[n].current) != {}
    ensures run[n].status == CampaignSucceeded ==> forall m <- run[n].members :: m.Done()
  {
    var w := run[n];
    RunInv(plan, run, n);
    forall i | 0 <= i < |w.members|
      ensures plan.batches[i] < w.current ==> w.members[i].Done()
      ensures plan.batches[i] > w.current ==>
        w.members[i].operation.None? && (w.members[i].status == MemberPending || w.members[i].status == Skipped)
    {
      assert MemberInv(plan, w, i);
    }
    forall i <- InFlight(w)
      ensures plan.batches[i] == w.current
    {
      assert MemberInv(plan, w, i);
    }
    if InFlight(w) != {} {
      var i :| i in InFlight(w);
      SubsetCardinality(InFlight(w), InBatch(plan, w.current));
      assert |InBatch(plan, plan.batches[i])| <= if plan.batches[i] == 0 then 1 else plan.batchSize;
    }
    if w.status == CampaignRunning || w.status == CampaignPaused {
      var i :| 0 <= i < |plan.batches| && plan.batches[i] == w.current;
      assert i in InBatch(plan, w.current);
    }
  }

  predicate KeysUnique(w: World) {
    forall o <- w.operations, p <- w.operations
      | w.operations[o].member == w.operations[p].member && w.operations[o].retryOf == w.operations[p].retryOf :: o == p
  }

  /** The row still names the operation that this one was to follow, and is not in flight;
      a broken row keeps the campaign paused. */
  predicate Loose(plan: Plan, w: World, o: nat)
    requires o in w.operations && w.operations[o].member < |w.members| == |plan.batches|
  {
    var i := w.operations[o].member;
    && w.members[i].operation == w.operations[o].retryOf
    && (w.members[i].operation.Some? ==>
          && w.members[i].Broken()
          && (w.status == CampaignCancelled || (w.status == CampaignPaused && plan.batches[i] == w.current)))
  }

  predicate LooseInv(plan: Plan, w: World)
    requires Inv(plan, w)
  {
    KeysUnique(w) && forall o <- LiveOperations(w) :: Attached(w, o) || Loose(plan, w, o)
  }

  lemma EvolvedStaysLoose(plan: Plan, w: World, v: World)
    requires Inv(plan, w) && Inv(plan, v) && LooseInv(plan, w) && Evolved(w, v)
    ensures LooseInv(plan, v)
  {
    forall o <- v.operations
      ensures v.operations[o].member == w.operations[o].member && v.operations[o].retryOf == w.operations[o].retryOf
      ensures o in LiveOperations(v) ==> o in LiveOperations(w)
    {
      assert Progress(w.operations[o], v.operations[o]);
    }
    assert KeysUnique(v);
    forall o <- LiveOperations(v)
      ensures Attached(v, o) || Loose(plan, v, o)
    {
      assert Attached(w, o) || Loose(plan, w, o);
    }
  }

  /** Only rows of a paused campaign's own retries hold loose operations, and writing another
      status over a row of an active campaign leaves its operation alone. */
  lemma WriteStaysLoose(plan: Plan, w: World, v: World, i: nat)
    requires Inv(plan, w) && Inv(plan, v) && LooseInv(plan, w) && Active(w) && i < |w.members|
    requires v == With(w, i, w.members[i].(status := v.members[i].status))
    ensures LooseInv(plan, v)
  {
    forall o <- LiveOperations(v)
      ensures Attached(v, o) || Loose(plan, v, o)
    {
      assert o in LiveOperations(w);
      assert Attached(w, o) || Loose(plan, w, o);
    }
  }

  lemma AttachStaysLoose(plan: Plan, w: World, v: World, i: nat, p: nat, shown: OperationStatus)
    requires Inv(plan, w) && Inv(plan, v) && LooseInv(plan, w) && Attach(plan, w, v, i, p, shown)
    ensures LooseInv(plan, v)
  {
    assert MemberInv(plan, w, i);
    forall o <- LiveOperations(v)
      ensures Attached(v, o) || Loose(plan, v, o)
    {
      assert o in LiveOperations(w);
      assert Attached(w, o) || Loose(plan, w, o);
    }
  }

  lemma MemberStepStaysLoose(plan: Plan, w: World, v: World, i: nat)
    requires Inv(plan, w) && Inv(plan, v) && LooseInv(plan, w) && MemberStep(plan, w, v, i)
    ensures LooseInv(plan, v)
  {
    hide Inv, LooseInv, Attach;
    if o, shown :| Attach(plan, w, v, i, o, shown) {
      AttachStaysLoose(plan, w, v, i, o, shown);
    } else {
      WriteStaysLoose(plan, w, v, i);
    }
  }

  lemma OtherStepStaysLoose(plan: Plan, w: World, v: World)
    requires Inv(plan, w) && Inv(plan, v) && LooseInv(plan, w)
    requires v == w.(status := v.status, current := v.current, justCreated := v.justCreated, retried := v.retried)
    requires w.status == CampaignPaused ==>
      v.status == CampaignCancelled || (v.status == CampaignPaused && v.current == w.current) || !HasBroken(plan, w)
    requires w.status == CampaignCancelled ==> v.status == CampaignCancelled
    ensures LooseInv(plan, v)
  {
    forall o <- LiveOperations(v)
      ensures Attached(v, o) || Loose(plan, v, o)
    {
      assert o in LiveOperations(w);
      assert Attached(w, o) || Loose(plan, w, o);
    }
  }

  lemma CreateStaysLoose(plan: Plan, w: World, v: World, i: nat, o: nat)
    requires Inv(plan, w) && Inv(plan, v) && LooseInv(plan, w) && CreateOperation(plan, w, v, i, o)
    ensures LooseInv(plan, v)
  {
    assert MemberInv(plan, w, i);
    forall p <- LiveOperations(v)
      ensures Attached(v, p) || Loose(plan, v, p)
    {
      if p != o {
        assert p in LiveOperations(w);
        assert Attached(w, p) || Loose(plan, w, p);
      }
    }
  }

  lemma StepStaysLoose(plan: Plan, w: World, v: World)
    requires Inv(plan, w) && Inv(plan, v) && LooseInv(plan, w) && Step(plan, w, v)
    ensures LooseInv(plan, v)
  {
    hide Inv, LooseInv, MemberStep, CreateOperation;
    if Evolved(w, v) {
      EvolvedStaysLoose(plan, w, v);
    } else if i :| MemberStep(plan, w, v, i) {
      MemberStepStaysLoose(plan, w, v, i);
    } else if i, o :| CreateOperation(plan, w, v, i, o) {
      CreateStaysLoose(plan, w, v, i, o);
    } else {
      OtherStepStaysLoose(plan, w, v);
    }
  }

  lemma {:induction false} RunLoose(plan: Plan, run: seq<World>, n: nat)
    requires WellFormed(plan) && Legal(plan, run) && n < |run|
    ensures Inv(plan, run[n]) && LooseInv(plan, run[n])
  {
    RunInv(plan, run, n);
    if n > 0 {
      RunLoose(plan, run, n - 1);
      StepStaysLoose(plan, run[n - 1], run[n]);
    }
  }

  /** No node beyond the current batch ever gets an operation. An operation still alive is
      in flight, in the current batch, if and only if it was entered in its row; only a
      deleted node takes an entered one out of flight. */
  lemma LiveOperationsAreStaged(plan: Plan, run: seq<World>, n: nat, o: nat)
    requires WellFormed(plan) && Legal(plan, run) && n < |run| && o in run[n].operations
    ensures var w := run[n];
      && w.operations[o].member < |plan.batches| == |w.members|
      && plan.batches[w.operations[o].member] <= w.current
      && (!w.operations[o].Terminal() && w.operations[o].member !in w.deleted ==>
            (w.operations[o].member in InFlight(w) <==> Attached(w, o)))
      && (!w.operations[o].Terminal() && w.operations[o].member in InFlight(w) ==>
            Attached(w, o) && plan.batches[w.operations[o].member] == w.current)
  {
    RunLoose(plan, run, n);
    var w := run[n];
    assert MemberInv(plan, w, w.operations[o].member);
    if !w.operations[o].Terminal() {
      assert o in LiveOperations(w);
      assert Attached(w, o) || Loose(plan, w, o);
    }
  }

  /** A member only counts as updated when its operation succeeded. */
  lemma SuccessIsReal(plan: Plan, run: seq<World>, n: nat, i: nat)
    requires WellFormed(plan) && Legal(plan, run) && n < |run| && i < |run[n].members|
    requires run[n].members[i].status == Shows(Succeeded)
    ensures var w := run[n];
      && w.members[i].operation.Some? && w.members[i].operation.value in w.operations
      && w.operations[w.members[i].operation.value].member == i && w.operations[w.members[i].operation.value].status == Succeeded
  {
    RunInv(plan, run, n);
    assert MemberInv(plan, run[n], i);
  }

  // ----- Gaps left by a crash or a deletion -----

  const PAIR := Plan([0, 1], 1)

  lemma PairIsWellFormed()
    ensures WellFormed(PAIR)
  {
    assert InBatch(PAIR, 0) == {0};
    assert InBatch(PAIR, 1) == {1};
    forall batch: nat | batch > 1
      ensures InBatch(PAIR, batch) == {}
    {
    }
  }

  lemma ExtendLegal(plan: Plan, run: seq<World>, next: World)
    requires Legal(plan, run) && Step(plan, run[|run| - 1], next)
    ensures Legal(plan, run + [next])
  {
    hide Step;
    var longer := run + [next];
    forall i | 0 < i < |longer|
      ensures Step(plan, longer[i - 1], longer[i])
    {
      if i < |run| {
        assert longer[i - 1] == run[i - 1] && longer[i] == run[i];
      }
    }
  }

  lemma StartLegal(plan: Plan)
    ensures Legal(plan, [Created(plan)])
  {
  }

  /** A crash between creating an operation and entering it: when the dispatch deadline
      passes, the member is skipped while its operation runs, and the next batch starts. */
  lemma UnattachedOperationIsOverlooked() returns (run: seq<World>)
    ensures WellFormed(PAIR) && Legal(PAIR, run)
    ensures var w := run[|run| - 1];
      w.current == 1 && 0 in w.operations && w.operations[0] == Operation(0, None, Running, true) && w.deleted == {}
  {
    PairIsWellFormed();
    StartLegal(PAIR);
    hide Legal;
    var idle := Member(MemberPending, None);
    var w0 := Created(PAIR);
    assert w0.members == [idle, idle];
    var w1 := w0.(status := CampaignRunning, current := 0);
    var w2 := w1.(operations := map[0 := Operation(0, None, Queued, false)], justCreated := Some(0));
    var w3 := w2.(operations := map[0 := Operation(0, None, Running, true)]);
    var w4 := w3.(members := [Member(Skipped, None), idle]);
    var w5 := w4.(current := 1);
    run := [w0];
    assert Begin(w0, w1);
    ExtendLegal(PAIR, run, w1);
    run := run + [w1];
    assert CreateOperation(PAIR, w1, w2, 0, 0);
    ExtendLegal(PAIR, run, w2);
    run := run + [w2];
    assert Evolved(w2, w3);
    ExtendLegal(PAIR, run, w3);
    run := run + [w3];
    assert SkipUndispatched(PAIR, w3, w4, 0) && MemberStep(PAIR, w3, w4, 0);
    ExtendLegal(PAIR, run, w4);
    run := run + [w4];
    assert PendingAbove(PAIR, w4, 1) && Advance(PAIR, w4, w5, 1);
    ExtendLegal(PAIR, run, w5);
    run := run + [w5];
  }

  predicate HoldsRetry(w: World, i: nat)
    requires i < |w.members|
  {
    && w.justCreated.Some? && w.justCreated.value in w.operations
    && w.operations[w.justCreated.value].member == i
    && w.operations[w.justCreated.value].retryOf == w.members[i].operation
  }

  /** This broken member can never be retried: its node is gone, or held by an operation that
      cannot end, or a retry of the same operation exists that the handler did not just
      create. */
  predicate Blocked(plan: Plan, w: World, i: nat) {
    && i < |w.members| && i < |plan.batches| && plan.batches[i] == w.current && w.members[i].Broken()
    && !HoldsRetry(w, i) && (i in w.deleted || i in w.stuck || KeyTaken(w, i))
  }

  ghost predicate DeadEnd(plan: Plan, w: World) {
    && w.status == CampaignPaused
    && ((!w.retried && !HasBroken(plan, w)) || exists i :: Blocked(plan, w, i))
  }

  lemma BlockedEvolves(plan: Plan, w: World, v: World, i: nat)
    requires Blocked(plan, w, i) && Evolved(w, v)
    ensures Blocked(plan, v, i)
  {
    forall o <- w.operations
      ensures v.operations[o].member == w.operations[o].member && v.operations[o].retryOf == w.operations[o].retryOf
    {
      assert Progress(w.operations[o], v.operations[o]);
    }
    if o :| o in w.operations && w.operations[o].member == i && w.operations[o].retryOf == w.members[i].operation {
      assert o in v.operations && KeyTaken(v, i);
    }
  }

  lemma BlockedStep(plan: Plan, w: World, v: World, i: nat)
    requires w.status == CampaignPaused && Blocked(plan, w, i) && Step(plan, w, v)
    ensures Cancel(w, v) || (v.status == CampaignPaused && Blocked(plan, v, i))
  {
    hide Evolved;
    if Evolved(w, v) {
      BlockedEvolves(plan, w, v, i);
      EvolvedIsPaused(w, v);
    } else if j, p :| CreateOperation(plan, w, v, j, p) {
      assert j != i;
      if o :| o in w.operations && w.operations[o].member == i && w.operations[o].retryOf == w.members[i].operation {
        assert o in v.operations && v.operations[o] == w.operations[o];
      }
    }
  }

  lemma EvolvedIsPaused(w: World, v: World)
    requires Evolved(w, v)
    ensures v.status == w.status
  {
  }

  lemma DeadEndStep(plan: Plan, w: World, v: World)
    requires DeadEnd(plan, w) && Step(plan, w, v)
    ensures Cancel(w, v) || DeadEnd(plan, v)
  {
    if i :| Blocked(plan, w, i) {
      BlockedStep(plan, w, v, i);
    }
  }

  /** Only cancelling leads out of a dead end. */
  lemma {:induction false} DeadEndIsFinal(plan: Plan, run: seq<World>, n: nat, m: nat)
    requires Legal(plan, run) && n <= m < |run| && DeadEnd(plan, run[n])
    requires forall k :: n <= k < m ==> !Cancel(run[k], run[k + 1])
    ensures DeadEnd(plan, run[m])
  {
    hide Step, DeadEnd;
    if m > n {
      DeadEndIsFinal(plan, run, n, m - 1);
      assert Step(plan, run[m - 1], run[m]) && !Cancel(run[m - 1], run[m - 1 + 1]);
      DeadEndStep(plan, run[m - 1], run[m]);
    }
  }

  function BrokenMembers(plan: Plan, w: World): set<nat> {
    set i: nat | i < |w.members| && i < |plan.batches| && plan.batches[i] == w.current && w.members[i].Broken()
  }

  /** Whatever others do on the nodes and can end has ended. */
  function Freed(w: World): World {
    w.(busy := {})
  }

  function Retried(w: World, i: nat, o: nat): World
    requires i < |w.members|
  {
    w.(operations := w.operations[o := Operation(i, w.members[i].operation, Queued, false)], justCreated := Some(o))
  }

  function Entered(w: World, i: nat, o: nat): World
    requires i < |w.members|
  {
    w.(members := w.members[i := Member(Shows(Queued), Some(o))], justCreated := None, retried := true)
  }

  /** A broken member without a retry has no operation alive. */
  lemma BrokenHasEnded(plan: Plan, w: World, i: nat)
    requires Inv(plan, w) && LooseInv(plan, w) && i < |w.members| && w.members[i].Broken() && !KeyTaken(w, i)
    ensures NoneActive(w, i)
  {
    assert MemberInv(plan, w, i);
    forall o <- w.operations | w.operations[o].member == i
      ensures w.operations[o].Terminal()
    {
      if !w.operations[o].Terminal() {
        assert o in LiveOperations(w);
      }
    }
  }

  lemma RetrySteps(plan: Plan, w: World, i: nat, o: nat)
    requires Inv(plan, w) && LooseInv(plan, w)
    requires w.status == CampaignPaused && w.justCreated.None? && i in BrokenMembers(plan, w)
    requires !Blocked(plan, w, i) && o !in w.operations
    ensures Evolved(w, Freed(w)) && CreateOperation(plan, Freed(w), Retried(Freed(w), i, o), i, o)
    ensures Attach(plan, Retried(Freed(w), i, o), Entered(Retried(Freed(w), i, o), i, o), i, o, Queued)
  {
    assert MemberInv(plan, w, i);
    assert !KeyTaken(w, i) && !KeyTaken(Freed(w), i);
    BrokenHasEnded(plan, w, i);
  }

  /** Retrying one broken member blocks no other. */
  lemma RetriedBlocksNone(plan: Plan, w: World, i: nat, o: nat, v: World)
    requires w.status == CampaignPaused && w.justCreated.None? && i in BrokenMembers(plan, w) && !DeadEnd(plan, w)
    requires o !in w.operations && v == Entered(Retried(Freed(w), i, o), i, o)
    ensures BrokenMembers(plan, v) == BrokenMembers(plan, w) - {i} && !DeadEnd(plan, v)
  {
    assert BrokenMembers(plan, v) == BrokenMembers(plan, w) - {i};
    forall j: nat
      ensures !Blocked(plan, v, j)
    {
      assert !Blocked(plan, w, j);
      if j < |w.members| && j != i && KeyTaken(v, j) {
        var p :| p in v.operations && v.operations[p].member == j && v.operations[p].retryOf == v.members[j].operation;
        assert p in w.operations && w.operations[p].member == j;
      }
    }
  }

  /** Its node becomes free, a retry is created and entered. */
  lemma RetryOne(plan: Plan, run: seq<World>, i: nat) returns (longer: seq<World>)
    requires WellFormed(plan) && Legal(plan, run)
    requires var w := run[|run| - 1];
      w.status == CampaignPaused && w.justCreated.None? && i in BrokenMembers(plan, w) && !DeadEnd(plan, w)
    ensures Legal(plan, longer) && run <= longer
    ensures var w, v := run[|run| - 1], longer[|longer| - 1];
      && v.status == CampaignPaused && v.justCreated.None? && v.retried
      && BrokenMembers(plan, v) == BrokenMembers(plan, w) - {i} && !DeadEnd(plan, v)
    ensures forall k :: |run| - 1 <= k < |longer| - 1 ==> !Cancel(longer[k], longer[k + 1])
  {
    var w := run[|run| - 1];
    RunLoose(plan, run, |run| - 1);
    assert !Blocked(plan, w, i);
    hide Legal, Inv, LooseInv, DeadEnd, Blocked, CreateOperation, Attach, Evolved;
    var o := Unused(w.operations.Keys);
    RetrySteps(plan, w, i, o);
    var freed, created := Freed(w), Retried(Freed(w), i, o);
    var entered := Entered(created, i, o);
    ExtendLegal(plan, run, freed);
    ExtendLegal(plan, run + [freed], created);
    assert MemberStep(plan, created, entered, i);
    ExtendLegal(plan, run + [freed] + [created], entered);
    longer := run + [freed] + [created] + [entered];
    RetriedBlocksNone(plan, w, i, o, entered);
    assert longer[|run| - 1] == w && longer[|run|] == freed && longer[|run| + 1] == created && longer[|run| + 2] == entered;
  }

  lemma Unused(ids: set<nat>) returns (id: nat)
    ensures id !in ids
  {
    id := 0;
    var left := ids;
    while left != {}
      invariant left <= ids && forall o <- ids :: o in left || o < id
    {
      var o :| o in left;
      left := left - {o};
      id := if o < id then id else o + 1;
    }
  }

  lemma {:induction false} RetryAll(plan: Plan, run: seq<World>) returns (longer: seq<World>)
    requires WellFormed(plan) && Legal(plan, run)
    requires var w := run[|run| - 1];
      w.status == CampaignPaused && w.justCreated.None? && !DeadEnd(plan, w)
    ensures Legal(plan, longer) && run <= longer && longer[|longer| - 1].status == CampaignRunning
    ensures forall k :: |run| - 1 <= k < |longer| - 1 ==> !Cancel(longer[k], longer[k + 1])
    decreases BrokenMembers(plan, run[|run| - 1])
  {
    var w := run[|run| - 1];
    if BrokenMembers(plan, w) == {} {
      assert !HasBroken(plan, w) by {
        forall i | 0 <= i < |w.members| && i < |plan.batches| && plan.batches[i] == w.current
          ensures !w.members[i].Broken()
        {
          assert i !in BrokenMembers(plan, w);
        }
      }
      var running := w.(status := CampaignRunning, retried := false);
      assert Resume(plan, w, running);
      ExtendLegal(plan, run, running);
      longer := run + [running];
    } else {
      var i :| i in BrokenMembers(plan, w);
      var one := RetryOne(plan, run, i);
      longer := RetryAll(plan, one);
    }
  }

  /** A paused campaign can be set running again, without cancelling, exactly when it is
      not a dead end: some member of the current batch is broken, and none of the broken ones
      lost its node, has its node held by an operation that cannot end, or has a retry left
      over from a handler that died. */
  lemma ResumableIff(plan: Plan, run: seq<World>)
    requires WellFormed(plan) && Legal(plan, run)
    requires run[|run| - 1].status == CampaignPaused && run[|run| - 1].justCreated.None? && !run[|run| - 1].retried
    ensures (exists longer: seq<World> ::
        && Legal(plan, longer) && run <= longer && longer[|longer| - 1].status == CampaignRunning
        && forall k :: |run| - 1 <= k < |longer| - 1 ==> !Cancel(longer[k], longer[k + 1])) <==>
      var w := run[|run| - 1]; HasBroken(plan, w) && forall i :: !Blocked(plan, w, i)
  {
    if DeadEnd(plan, run[|run| - 1]) {
      forall longer: seq<World> |
        && Legal(plan, longer) && run <= longer
        && (forall k :: |run| - 1 <= k < |longer| - 1 ==> !Cancel(longer[k], longer[k + 1]))
        ensures longer[|longer| - 1].status == CampaignPaused
      {
        assert longer[|run| - 1] == run[|run| - 1];
        DeadEndIsFinal(plan, longer, |run| - 1, |longer| - 1);
      }
    } else {
      var longer := RetryAll(plan, run);
    }
  }

  const CANARY_FAILED := World(
    CampaignPaused, 0, [Member(Shows(OperationStatus.Failed), Some(0)), Member(MemberPending, None)],
    map[0 := Operation(0, None, OperationStatus.Failed, true)], {}, {}, {}, None, false)

  lemma CanaryCanFail() returns (run: seq<World>)
    ensures WellFormed(PAIR) && Legal(PAIR, run) && run[|run| - 1] == CANARY_FAILED
  {
    PairIsWellFormed();
    StartLegal(PAIR);
    hide Legal;
    var w0 := Created(PAIR);
    assert w0.members == [Member(MemberPending, None), Member(MemberPending, None)];
    var w1 := w0.(status := CampaignRunning, current := 0);
    var w2 := w1.(operations := map[0 := Operation(0, None, Queued, false)], justCreated := Some(0));
    var w3 := w2.(operations := CANARY_FAILED.operations);
    var w4 := CANARY_FAILED.(status := CampaignRunning);
    run := [w0];
    assert Begin(w0, w1);
    ExtendLegal(PAIR, run, w1);
    run := run + [w1];
    assert CreateOperation(PAIR, w1, w2, 0, 0);
    ExtendLegal(PAIR, run, w2);
    run := run + [w2];
    assert Evolved(w2, w3);
    ExtendLegal(PAIR, run, w3);
    run := run + [w3];
    assert Attach(PAIR, w3, w4, 0, 0, OperationStatus.Failed) && MemberStep(PAIR, w3, w4, 0);
    ExtendLegal(PAIR, run, w4);
    run := run + [w4];
    assert Pause(w4, CANARY_FAILED);
    ExtendLegal(PAIR, run, CANARY_FAILED);
    run := run + [CANARY_FAILED];
  }

  ghost predicate EndsDead(run: seq<World>) {
    Legal(PAIR, run) && DeadEnd(PAIR, run[|run| - 1])
  }

  lemma DeletionIsADeadEnd() returns (run: seq<World>)
    ensures WellFormed(PAIR) && EndsDead(run) && run[|run| - 1] == CANARY_FAILED.(deleted := {0})
  {
    run := CanaryCanFail();
    hide Legal;
    var gone := CANARY_FAILED.(deleted := {0});
    assert Evolved(CANARY_FAILED, gone);
    ExtendLegal(PAIR, run, gone);
    run := run + [gone];
    assert Blocked(PAIR, gone, 0);
  }

  lemma HeldNodeIsADeadEnd() returns (run: seq<World>)
    ensures WellFormed(PAIR) && EndsDead(run) && run[|run| - 1] == CANARY_FAILED.(stuck := {0})
  {
    run := CanaryCanFail();
    hide Legal;
    var taken, never := CANARY_FAILED.(busy := {0}), CANARY_FAILED.(stuck := {0});
    assert Evolved(CANARY_FAILED, taken);
    ExtendLegal(PAIR, run, taken);
    assert Evolved(taken, never);
    ExtendLegal(PAIR, run + [taken], never);
    run := run + [taken] + [never];
    assert Blocked(PAIR, never, 0);
  }

  const RETRY := CANARY_FAILED.(
    operations := CANARY_FAILED.operations[1 := Operation(0, Some(0), Queued, false)], justCreated := Some(1))

  lemma RetryIsCreated() returns (run: seq<World>)
    ensures WellFormed(PAIR) && Legal(PAIR, run) && run[|run| - 1] == RETRY
  {
    run := CanaryCanFail();
    hide Legal;
    assert CreateOperation(PAIR, CANARY_FAILED, RETRY, 0, 1);
    ExtendLegal(PAIR, run, RETRY);
    run := run + [RETRY];
  }

  lemma LeftoverRetryIsADeadEnd() returns (run: seq<World>)
    ensures WellFormed(PAIR) && EndsDead(run) && run[|run| - 1] == RETRY.(justCreated := None)
  {
    run := RetryIsCreated();
    hide Legal;
    var stopped := RETRY.(justCreated := None);
    assert Settle(RETRY, stopped);
    ExtendLegal(PAIR, run, stopped);
    run := run + [stopped];
    assert 1 in stopped.operations && Blocked(PAIR, stopped, 0);
  }

  lemma EnteredRetryIsADeadEnd() returns (run: seq<World>)
    ensures WellFormed(PAIR) && EndsDead(run)
    ensures run[|run| - 1] == RETRY.(justCreated := None, members := RETRY.members[0 := Member(Shows(Queued), Some(1))])
  {
    run := RetryIsCreated();
    hide Legal;
    var row := RETRY.(justCreated := None, members := RETRY.members[0 := Member(Shows(Queued), Some(1))], retried := true);
    assert Attach(PAIR, RETRY, row, 0, 1, Queued) && MemberStep(PAIR, RETRY, row, 0);
    ExtendLegal(PAIR, run, row);
    var over := row.(retried := false);
    assert Settle(row, over);
    ExtendLegal(PAIR, run + [row], over);
    run := run + [row] + [over];
  }

  /** All four dead ends can happen: the node is deleted during the pause; another operation
      on the node gets stuck; the server stops after creating the retry; it stops after
      entering the last retry. */
  lemma DeadEndsAreReachable() returns (deleted: seq<World>, held: seq<World>, created: seq<World>, entered: seq<World>)
    ensures WellFormed(PAIR) && EndsDead(deleted) && EndsDead(held) && EndsDead(created) && EndsDead(entered)
    ensures deleted[|deleted| - 1] == CANARY_FAILED.(deleted := {0}) && held[|held| - 1] == CANARY_FAILED.(stuck := {0})
    ensures created[|created| - 1] == RETRY.(justCreated := None) && BrokenMembers(PAIR, entered[|entered| - 1]) == {}
  {
    deleted := DeletionIsADeadEnd();
    held := HeldNodeIsADeadEnd();
    created := LeftoverRetryIsADeadEnd();
    entered := EnteredRetryIsADeadEnd();
  }
}
