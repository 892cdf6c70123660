/**
 The long poll for operations of one node: claim handlers read, subscribe, read again
 and wait; creators commit, then notify; the node may be renamed. The steps of all of
 them interleave freely. Reads find a node under any name it ever had, but channels
 belong to a name.
 */
module LongPoll {
  import opened Common

  /** `ready`: its start time has come. `announced`: the names of the node under which notify
      calls for it have returned.
      `claimed`: it runs under a lease that has not run out.
      `ended`: finished, expired, or asked to cancel, so that no claim is granted any more. */
  datatype Operation = Operation(
    needs: set<string>, ready: bool, announced: set<string>, claimed: bool, ended: bool)

  /** Where a claim handler stands; a channel of its name is known by its generation. `early` is
      history: the operations that were too early or leased at the second read. */
  datatype Place =
    | FirstRead
    | Subscribing
    | SecondRead(channel: nat)
    | Waiting(channel: nat, early: set<nat>)
    | LastRead
    | Answered(operation: Option<nat>)

  /** `name` is the node's name when the handler authenticated it. */
  datatype Handler = Handler(name: string, capabilities: set<string>, place: Place)

  /** `names` are those the node has had, the last one its own. `counts` says how often each
      name was notified: the channels made for a name before are closed. */
  datatype World = World(
    operations: map<nat, Operation>, handlers: map<nat, Handler>, names: seq<string>, counts: map<string, nat>)

  function Count(counts: map<string, nat>, name: string): nat {
    if name in counts then counts[name] else 0
  }

  function Counted(counts: map<string, nat>, name: string): map<string, nat> {
    counts[name := Count(counts, name) + 1]
  }

  predicate Closed(w: World, h: nat, channel: nat)
    requires h in w.handlers
  {
    channel < Count(w.counts, w.handlers[h].name)
  }

  predicate Claimable(o: Operation, capabilities: set<string>) {
    o.ready && !o.claimed && !o.ended && o.needs <= capabilities
  }

  // ----- Steps -----

  /** A new operation is stored, to be started at once or later. */
  predicate Commit(w: World, v: World, o: nat) {
    && o !in w.operations && o in v.operations
    && v.operations[o] == Operation(v.operations[o].needs, v.operations[o].ready, {}, false, false)
    && v == w.(operations := w.operations[o := v.operations[o]])
  }

  /** Closes the current channel of a name that the node has or, when it was read before a
      rename, had, and puts a new one in its place. */
  predicate Announce(w: World, v: World, o: nat, name: string) {
    o in w.operations && name in w.names && v == Announcing(w, o, name)
  }

  function Announcing(w: World, o: nat, name: string): World
    requires o in w.operations
  {
    w.(operations := w.operations[o := w.operations[o].(announced := w.operations[o].announced + {name})],
       counts := Counted(w.counts, name))
  }

  predicate Rename(w: World, v: World, name: string) {
    v == w.(names := w.names + [name])
  }

  /** Another node is notified. */
  predicate Elsewhere(w: World, v: World, name: string) {
    name !in w.names && v == w.(counts := Counted(w.counts, name))
  }

  /** A lease runs out, and the operation can be claimed again; nobody is notified. */
  predicate Release(w: World, v: World, o: nat) {
    o in w.operations && v == w.(operations := w.operations[o := w.operations[o].(claimed := false)])
  }

  /** The start time comes; nobody is notified. */
  predicate BecomeReady(w: World, v: World, o: nat) {
    && o in w.operations && !w.operations[o].ready
    && v == w.(operations := w.operations[o := w.operations[o].(ready := true)])
  }

  /** The operation finishes, expires, or is asked to cancel. */
  predicate End(w: World, v: World, o: nat) {
    o in w.operations && v == w.(operations := w.operations[o := w.operations[o].(ended := true)])
  }

  predicate Arrive(w: World, v: World, h: nat) {
    && w.names != [] && h !in w.handlers && h in v.handlers
    && v.handlers[h].place == FirstRead && v.handlers[h].name == w.names[|w.names| - 1]
    && v == w.(handlers := w.handlers[h := v.handlers[h]])
  }

  function At(w: World, h: nat, place: Place): World
    requires h in w.handlers
  {
    w.(handlers := w.handlers[h := w.handlers[h].(place := place)])
  }

  /** A read that finds a claimable operation claims it and answers. */
  predicate Found(w: World, v: World, h: nat, o: nat) {
    && h in w.handlers && (w.handlers[h].place.FirstRead? || w.handlers[h].place.SecondRead? || w.handlers[h].place.LastRead?)
    && o in w.operations && Claimable(w.operations[o], w.handlers[h].capabilities)
    && v == At(w, h, Answered(Some(o))).(operations := w.operations[o := w.operations[o].(claimed := true)])
  }

  predicate NothingClaimable(w: World, h: nat) {
    h in w.handlers && forall o <- w.operations :: !Claimable(w.operations[o], w.handlers[h].capabilities)
  }

  function Unavailable(w: World): set<nat> {
    set o <- w.operations | !w.operations[o].ready || w.operations[o].claimed
  }

  predicate NotFound(w: World, v: World, h: nat) {
    && NothingClaimable(w, h)
    && match w.handlers[h].place
       case FirstRead => v == At(w, h, Subscribing)
       case SecondRead(channel) => v == At(w, h, Waiting(channel, Unavailable(w)))
       case LastRead => v == At(w, h, Answered(None))
       case _ => false
  }

  predicate TakeChannel(w: World, v: World, h: nat) {
    h in w.handlers && w.handlers[h].place == Subscribing && v == At(w, h, SecondRead(Count(w.counts, w.handlers[h].name)))
  }

  /** The channel is closed, the time is up, or the client is gone. */
  predicate Wake(w: World, v: World, h: nat) {
    h in w.handlers && w.handlers[h].place.Waiting? && v == At(w, h, LastRead)
  }

  predicate Leave(w: World, v: World, h: nat) {
    h in w.handlers && v == At(w, h, Answered(None))
  }

  ghost predicate HandlerStep(w: World, v: World, h: nat) {
    || Arrive(w, v, h) || (exists o :: Found(w, v, h, o)) || NotFound(w, v, h)
    || TakeChannel(w, v, h) || Wake(w, v, h) || Leave(w, v, h)
  }

  predicate OperationStep(w: World, v: World, o: nat) {
    Commit(w, v, o) || Release(w, v, o) || BecomeReady(w, v, o) || End(w, v, o)
  }

  ghost predicate NameStep(w: World, v: World, name: string) {
    (exists o :: Announce(w, v, o, name)) || Rename(w, v, name) || Elsewhere(w, v, name)
  }

  ghost predicate Step(w: World, v: World) {
    || (exists o :: OperationStep(w, v, o)) || (exists h :: HandlerStep(w, v, h))
    || (exists name :: NameStep(w, v, name))
  }

  ghost predicate Legal(run: seq<World>) {
    && run != [] && run[0].operations == map[] && run[0].handlers == map[] && |run[0].names| == 1
    && forall i :: 0 < i < |run| ==> Step(run[i - 1], run[i])
  }

  // ----- What the second read and the channel guarantee -----

  predicate Blocked(w: World, h: nat) {
    h in w.handlers && w.handlers[h].place.Waiting?
  }

  /** An operation of interest to the handler: still to be run, and within its capabilities. */
  predicate Awaits(w: World, h: nat, o: nat) {
    && h in w.handlers && o in w.operations
    && !w.operations[o].ended && w.operations[o].needs <= w.handlers[h].capabilities
  }

  /** Blocked on an open channel, waiting for the operation among others. */
  predicate Asleep(w: World, h: nat, o: nat) {
    Blocked(w, h) && Awaits(w, h, o) && !Closed(w, h, w.handlers[h].place.channel)
  }

  /** Announced under the name the handler waits for. */
  predicate Told(w: World, h: nat, o: nat)
    requires h in w.handlers && o in w.operations
  {
    w.handlers[h].name in w.operations[o].announced
  }

  /** Channels are not from the future. */
  predicate Timely(w: World, h: nat)
    requires h in w.handlers
  {
    match w.handlers[h].place
    case SecondRead(channel) => channel <= Count(w.counts, w.handlers[h].name)
    case Waiting(channel, _) => channel <= Count(w.counts, w.handlers[h].name)
    case _ => true
  }

  /** What a handler blocked on an open channel was told of and could run was not to be had
      at its second read. */
  predicate Inv(w: World) {
    && (forall h <- w.handlers :: Timely(w, h))
    && forall h <- w.handlers, o <- w.operations | Asleep(w, h, o) && Told(w, h, o) :: o in w.handlers[h].place.early
  }

  lemma OperationStepKeepsInv(w: World, v: World, o: nat)
    requires Inv(w) && OperationStep(w, v, o)
    ensures Inv(v)
  {
    forall h <- v.handlers, p <- v.operations | Asleep(v, h, p) && Told(v, h, p)
      ensures p in v.handlers[h].place.early
    {
      assert Asleep(w, h, p) && Told(w, h, p);
    }
    assert forall h <- v.handlers :: Timely(w, h) ==> Timely(v, h);
  }

  lemma NameStepKeepsInv(w: World, v: World, name: string)
    requires Inv(w) && NameStep(w, v, name)
    ensures Inv(v)
  {
    forall h <- v.handlers, p <- v.operations | Asleep(v, h, p) && Told(v, h, p)
      ensures p in v.handlers[h].place.early
    {
      assert Timely(w, h);
      assert Asleep(w, h, p) && Told(w, h, p);
    }
    assert forall h <- v.handlers :: Timely(w, h) ==> Timely(v, h);
  }

  /** Only going to wait concerns what a handler was told. */
  lemma NotFoundKeepsInv(w: World, v: World, h: nat)
    requires Inv(w) && NotFound(w, v, h)
    ensures Inv(v)
  {
    forall k <- v.handlers, p <- v.operations | Asleep(v, k, p) && Told(v, k, p)
      ensures p in v.handlers[k].place.early
    {
      if k != h {
        assert Asleep(w, k, p) && Told(w, k, p);
      }
    }
    assert forall k <- w.handlers :: Timely(w, k) ==> Timely(v, k);
  }

  /** Operations may be claimed, but keep what is known of them. */
  predicate SameNews(w: World, v: World) {
    v.operations.Keys == w.operations.Keys && forall o <- w.operations ::
      v.operations[o] == w.operations[o].(claimed := v.operations[o].claimed)
  }

  /** A handler that does not go to wait concerns no other. */
  lemma MoveKeepsInv(w: World, v: World, h: nat)
    requires Inv(w) && h in v.handlers && v.handlers == w.handlers[h := v.handlers[h]] && v.counts == w.counts
    requires SameNews(w, v) && !v.handlers[h].place.Waiting? && Timely(v, h)
    ensures Inv(v)
  {
    forall k <- v.handlers, p <- v.operations | Asleep(v, k, p) && Told(v, k, p)
      ensures p in v.handlers[k].place.early
    {
      assert Asleep(w, k, p) && Told(w, k, p);
    }
    assert forall k <- w.handlers :: k != h && Timely(w, k) ==> Timely(v, k);
  }

  lemma HandlerStepKeepsInv(w: World, v: World, h: nat)
    requires Inv(w) && HandlerStep(w, v, h)
    ensures Inv(v)
  {
    hide NotFound, Inv;
    if NotFound(w, v, h) {
      NotFoundKeepsInv(w, v, h);
    } else {
      MoveKeepsInv(w, v, h);
    }
  }

  lemma StepKeepsInv(w: World, v: World)
    requires Inv(w) && Step(w, v)
    ensures Inv(v)
  {
    hide Inv, OperationStep, HandlerStep, NameStep;
    if o :| OperationStep(w, v, o) {
      OperationStepKeepsInv(w, v, o);
    } else if h :| HandlerStep(w, v, h) {
      HandlerStepKeepsInv(w, v, h);
    } else {
      var name :| NameStep(w, v, name);
      NameStepKeepsInv(w, v, name);
    }
  }

  lemma {:induction false} RunInv(run: seq<World>, n: nat)
    requires Legal(run) && n < |run|
    ensures Inv(run[n])
  {
    if n > 0 {
      RunInv(run, n - 1);
      StepKeepsInv(run[n - 1], run[n]);
    }
  }

  /** In every interleaving: while a handler is blocked and an operation it could run was
      announced under its name, its channel is closed, unless at the handler's second read
      that operation was still too early or leased to another claim. */
  lemma NoMissedWakeup(run: seq<World>, n: nat, h: nat, o: nat)
    requires Legal(run) && n < |run| && Blocked(run[n], h) && Awaits(run[n], h, o) && Told(run[n], h, o)
    ensures Closed(run[n], h, run[n].handlers[h].place.channel) || o in run[n].handlers[h].place.early
  {
    RunInv(run, n);
  }

  // ----- When nothing is missed -----

  predicate Announced(w: World, o: nat) {
    o in w.operations && w.operations[o].announced != {}
  }

  predicate ClaimableNow(w: World, o: nat) {
    o in w.operations && w.operations[o].ready && !w.operations[o].claimed && !w.operations[o].ended
  }

  /** No handler sleeps on an open channel while an announced operation waits that it could
      claim. */
  predicate Woken(w: World) {
    forall h <- w.handlers, o <- w.operations | Asleep(w, h, o) && Announced(w, o) :: !ClaimableNow(w, o)
  }

  /** A start time comes, or a lease runs out, for an announced operation while a handler
      that could run it is already blocked. */
  predicate StartsTooLate(w: World, v: World, h: nat, o: nat) {
    && (BecomeReady(w, v, o) || Release(w, v, o)) && Asleep(w, h, o) && Announced(w, o)
    && !ClaimableNow(w, o) && ClaimableNow(v, o)
  }

  /** An operation is first announced under a name that a handler blocked for it does not
      wait for: the node was renamed in between. */
  predicate GoesAstray(w: World, v: World, h: nat, o: nat, name: string) {
    && Announce(w, v, o, name) && Asleep(w, h, o) && w.handlers[h].name != name
    && !Announced(w, o) && ClaimableNow(w, o)
  }

  ghost predicate Misses(w: World, v: World) {
    (exists h, o :: StartsTooLate(w, v, h, o)) || (exists h, o, name :: GoesAstray(w, v, h, o, name))
  }

  lemma OperationStepWakes(w: World, v: World, o: nat)
    requires Inv(w) && Woken(w) && OperationStep(w, v, o) && !Misses(w, v)
    ensures Woken(v)
  {
    forall h <- v.handlers, p <- v.operations | Asleep(v, h, p) && Announced(v, p)
      ensures !ClaimableNow(v, p)
    {
      assert !StartsTooLate(w, v, h, p);
      if p in w.operations {
        assert Asleep(w, h, p) && Announced(w, p);
      }
    }
  }

  lemma AnnounceWakes(w: World, v: World, o: nat, name: string)
    requires Inv(w) && Woken(w) && Announce(w, v, o, name) && !Misses(w, v)
    ensures Woken(v)
  {
    forall h <- v.handlers, p <- v.operations | Asleep(v, h, p) && Announced(v, p)
      ensures !ClaimableNow(v, p)
    {
      assert Asleep(w, h, p);
      assert !GoesAstray(w, v, h, p, name);
    }
  }

  lemma NameStepWakes(w: World, v: World, name: string)
    requires Inv(w) && Woken(w) && NameStep(w, v, name) && !Misses(w, v)
    ensures Woken(v)
  {
    if o :| Announce(w, v, o, name) {
      AnnounceWakes(w, v, o, name);
    } else {
      forall h <- v.handlers, p <- v.operations | Asleep(v, h, p) && Announced(v, p)
        ensures !ClaimableNow(v, p)
      {
        assert Asleep(w, h, p) && Announced(w, p);
      }
    }
  }

  lemma HandlerStepWakes(w: World, v: World, h: nat)
    requires Inv(w) && Woken(w) && HandlerStep(w, v, h)
    ensures Woken(v)
  {
    forall k <- v.handlers, p <- v.operations | Asleep(v, k, p) && Announced(v, p) && ClaimableNow(v, p)
      ensures false
    {
      assert k in w.handlers && p in w.operations && Announced(w, p) && ClaimableNow(w, p);
      if Blocked(w, k) {
        assert Asleep(w, k, p);
      }
    }
  }

  lemma StepWakesIff(w: World, v: World)
    requires Inv(w) && Woken(w) && Step(w, v)
    ensures Woken(v) <==> !Misses(w, v)
  {
    hide OperationStep, HandlerStep, NameStep, Inv;
    if h, o :| StartsTooLate(w, v, h, o) {
      assert Asleep(v, h, o) && Announced(v, o) && ClaimableNow(v, o);
    } else if h, o, name :| GoesAstray(w, v, h, o, name) {
      assert Asleep(v, h, o) && Announced(v, o) && ClaimableNow(v, o);
    } else if o :| OperationStep(w, v, o) {
      OperationStepWakes(w, v, o);
    } else if h :| HandlerStep(w, v, h) {
      HandlerStepWakes(w, v, h);
    } else {
      var name :| NameStep(w, v, name);
      NameStepWakes(w, v, name);
    }
  }

  ghost predicate WokenUpTo(run: seq<World>, n: nat) {
    n < |run| && forall i :: 0 <= i <= n ==> Woken(run[i])
  }

  ghost predicate MissesNothingUpTo(run: seq<World>, n: nat) {
    n < |run| && forall i :: 0 < i <= n ==> !Misses(run[i - 1], run[i])
  }

  /** No handler ever sleeps through an announced operation it could claim if and only if no
      announced operation becomes claimable, by its start time or by the end of a lease, and
      none is first announced under another name, while a handler for it is blocked on its
      open channel. */
  lemma {:induction false} WokenIffNothingLate(run: seq<World>, n: nat)
    requires Legal(run) && n < |run|
    ensures WokenUpTo(run, n) <==> MissesNothingUpTo(run, n)
  {
    if n > 0 {
      hide Woken, Misses, Step, Inv;
      WokenIffNothingLate(run, n - 1);
      RunInv(run, n - 1);
      assert WokenUpTo(run, n) <==> WokenUpTo(run, n - 1) && Woken(run[n]);
      assert MissesNothingUpTo(run, n) <==> MissesNothingUpTo(run, n - 1) && !Misses(run[n - 1], run[n]);
      if WokenUpTo(run, n - 1) {
        StepWakesIff(run[n - 1], run[n]);
      }
    }
  }

  // ----- The two ways to miss one -----

  const EMPTY := World(map[], map[], ["a"], map[])

  lemma ExtendLegal(run: seq<World>, next: World)
    requires Legal(run) && Step(run[|run| - 1], next)
    ensures Legal(run + [next])
  {
    hide Step;
    var longer := run + [next];
    forall i | 0 < i < |longer|
      ensures Step(longer[i - 1], longer[i])
    {
      if i < |run| {
        assert longer[i - 1] == run[i - 1] && longer[i] == run[i];
      }
    }
  }

  function Arrived(w: World): World {
    w.(handlers := map[0 := Handler("a", {}, FirstRead)])
  }

  function Subscribed(w: World): World {
    w.(handlers := map[0 := Handler("a", {}, SecondRead(Count(w.counts, "a")))])
  }

  function Waits(w: World): World {
    w.(handlers := map[0 := Handler("a", {}, Waiting(Count(w.counts, "a"), Unavailable(w)))])
  }

  lemma WaitingSteps(w: World)
    requires w.names == ["a"] && w.handlers == map[] && forall o <- w.operations :: !w.operations[o].ready
    ensures Step(w, Arrived(w)) && Step(Arrived(w), At(Arrived(w), 0, Subscribing))
    ensures Step(At(Arrived(w), 0, Subscribing), Subscribed(w)) && Step(Subscribed(w), Waits(w))
  {
    var missed := At(Arrived(w), 0, Subscribing);
    assert Arrive(w, Arrived(w), 0) && HandlerStep(w, Arrived(w), 0);
    assert NotFound(Arrived(w), missed, 0) && HandlerStep(Arrived(w), missed, 0);
    assert TakeChannel(missed, Subscribed(w), 0) && HandlerStep(missed, Subscribed(w), 0);
    assert NotFound(Subscribed(w), Waits(w), 0) && HandlerStep(Subscribed(w), Waits(w), 0);
  }

  /** A handler comes, finds nothing, subscribes, finds nothing, and waits. */
  lemma HandlerWaits(run: seq<World>) returns (longer: seq<World>)
    requires Legal(run) && var w := run[|run| - 1];
      w.names == ["a"] && w.handlers == map[] && forall o <- w.operations :: !w.operations[o].ready
    ensures Legal(longer) && longer[|longer| - 1] == Waits(run[|run| - 1])
    ensures forall w <- longer :: w in run || w.operations == run[|run| - 1].operations
  {
    hide Step;
    var w := run[|run| - 1];
    var missed := At(Arrived(w), 0, Subscribing);
    WaitingSteps(w);
    ExtendLegal(run, Arrived(w));
    ExtendLegal(run + [Arrived(w)], missed);
    ExtendLegal(run + [Arrived(w)] + [missed], Subscribed(w));
    ExtendLegal(run + [Arrived(w)] + [missed] + [Subscribed(w)], Waits(w));
    longer := run + [Arrived(w)] + [missed] + [Subscribed(w)] + [Waits(w)];
  }

  lemma OneStep(w: World, v: World, o: nat, name: string)
    requires OperationStep(w, v, o) || NameStep(w, v, name)
    ensures Step(w, v)
  {
  }

  /** An operation that starts later is announced before the handler comes, which sleeps on
      when the start time comes. */
  lemma LateStartMissesWakeup() returns (run: seq<World>)
    ensures Legal(run) && !Woken(run[|run| - 1]) && |run[|run| - 1].names| == 1
  {
    var committed := EMPTY.(operations := map[0 := Operation({}, false, {}, false, false)]);
    var told := Announcing(committed, 0, "a");
    assert Commit(EMPTY, committed, 0) && OperationStep(EMPTY, committed, 0);
    assert Announce(committed, told, 0, "a") && NameStep(committed, told, "a");
    run := HandlerWaits([EMPTY, committed, told]);
    hide Legal, Step;
    var blocked := Waits(told);
    var ready := blocked.(operations := map[0 := blocked.operations[0].(ready := true)]);
    assert BecomeReady(blocked, ready, 0);
    OneStep(blocked, ready, 0, "");
    ExtendLegal(run, ready);
    run := run + [ready];
    assert Asleep(ready, 0, 0) && Announced(ready, 0) && ClaimableNow(ready, 0);
  }

  /** All operations of the run could be claimed at any time. */
  predicate AllClaimable(run: seq<World>) {
    forall i :: 0 <= i < |run| ==> forall o <- run[i].operations :: ClaimableNow(run[i], o)
  }

  const RENAMED := Waits(EMPTY).(names := ["a", "b"])
  const COMMITTED := RENAMED.(operations := map[0 := Operation({}, true, {}, false, false)])
  const ASTRAY := Announcing(COMMITTED, 0, "b")

  lemma RenamedSteps()
    ensures Step(Waits(EMPTY), RENAMED) && Step(RENAMED, COMMITTED) && Step(COMMITTED, ASTRAY)
    ensures AllClaimable([RENAMED, COMMITTED, ASTRAY]) && !Woken(ASTRAY)
  {
    hide Step;
    OneStep(Waits(EMPTY), RENAMED, 0, "b");
    OneStep(RENAMED, COMMITTED, 0, "");
    assert Announce(COMMITTED, ASTRAY, 0, "b");
    OneStep(COMMITTED, ASTRAY, 0, "b");
    assert Asleep(ASTRAY, 0, 0) && Announced(ASTRAY, 0) && ClaimableNow(ASTRAY, 0);
  }

  lemma WaitsForNothing() returns (run: seq<World>)
    ensures Legal(run) && run[|run| - 1] == Waits(EMPTY) && AllClaimable(run)
  {
    run := HandlerWaits([EMPTY]);
  }

  lemma ThreeMore(run: seq<World>, a: World, b: World, c: World)
    requires Legal(run) && Step(run[|run| - 1], a) && Step(a, b) && Step(b, c)
    requires AllClaimable(run) && AllClaimable([a, b, c])
    ensures Legal(run + [a, b, c]) && AllClaimable(run + [a, b, c])
  {
    hide Legal, Step, ClaimableNow;
    ExtendLegal(run, a);
    ExtendLegal(run + [a], b);
    ExtendLegal(run + [a] + [b], c);
    assert run + [a] + [b] + [c] == run + [a, b, c];
    forall i | 0 <= i < |run| + 3
      ensures forall o <- (run + [a, b, c])[i].operations :: ClaimableNow((run + [a, b, c])[i], o)
    {
      assert (run + [a, b, c])[i] == if i < |run| then run[i] else [a, b, c][i - |run|];
    }
  }

  /** The node is renamed while the handler is blocked; an operation that can be run at once is
      announced under the new name only. */
  lemma RenameMissesWakeup() returns (run: seq<World>)
    ensures Legal(run) && !Woken(run[|run| - 1]) && AllClaimable(run)
  {
    hide *;
    var waits := WaitsForNothing();
    RenamedSteps();
    ThreeMore(waits, RENAMED, COMMITTED, ASTRAY);
    run := waits + [RENAMED, COMMITTED, ASTRAY];
  }

  // ----- The notifier -----

  /** A channel and, as history, whom it was made for and after how many notifications. */
  class Channel {
    ghost const node: string
    ghost const generation: nat
    var closed: bool

    constructor (ghost node: string, ghost generation: nat)
      ensures !closed && this.node == node && this.generation == generation
    {
      closed := false;
      this.node, this.generation := node, generation;
    }

    /** Closing a closed channel would panic. */
    method Close()
      requires !closed
      modifies this
      ensures closed
    {
      closed := true;
    }
  }

  class Notifier {
    var waiters: map<string, Channel>
    ghost var issued: set<Channel>

    /** How often the node was notified. */
    ghost function Notified(node: string): nat
      reads this
    {
      if node in waiters then waiters[node].generation else 0
    }

    /** The channel handed out for a node is its newest and open; a channel is closed
        exactly when the node was notified after it was made. */
    ghost predicate Valid()
      reads this, issued
    {
      && (forall n <- waiters :: waiters[n] in issued && waiters[n].node == n)
      && (forall c <- issued :: Fits(c))
    }

    ghost predicate Fits(c: Channel)
      reads this, c
    {
      && c.node in waiters && c.generation <= Notified(c.node)
      && (c.closed <==> c.generation < Notified(c.node))
      && (c == waiters[c.node] || c.closed)
    }

    /** The world of a node's long poll knows of every notification. */
    ghost predicate Knows(w: World)
      reads this
    {
      forall name :: Count(w.counts, name) == Notified(name)
    }

    constructor ()
      ensures Valid() && issued == {} && waiters == map[]
    {
      waiters, issued := map[], {};
    }

    /** A handler `h` of the node's long poll subscribes: it gets the open channel, and takes
        the step that the rules describe. */
    method Subscribe(node: string, ghost w: World, ghost h: nat) returns (c: Channel, ghost v: World)
      requires Valid() && Knows(w) && h in w.handlers && w.handlers[h].place == Subscribing && w.handlers[h].name == node
      modifies this
      ensures Valid() && node in waiters && c == waiters[node] && c.node == node && !c.closed
      ensures issued == old(issued) + {c}
      ensures if node in old(waiters) then waiters == old(waiters) else waiters == old(waiters)[node := c]
      ensures Knows(v) && TakeChannel(w, v, h) && v.handlers[h].place == SecondRead(c.generation)
    {
      if node !in waiters {
        c := new Channel(node, 0);
        waiters, issued := waiters[node := c], issued + {c};
      } else {
        c := waiters[node];
      }
      v := At(w, h, SecondRead(c.generation));
    }

    method CloseIssued(node: string)
      requires Valid()
      modifies issued
      ensures forall c <- issued :: c.closed == (old(c.closed) || c.node == node)
    {
      if node in waiters {
        waiters[node].Close();
      }
    }

    /** Closes everything issued for the node so far, and nothing else. */
    method Replace(node: string)
      requires Valid()
      modifies this, issued
      ensures Valid() && node in waiters && fresh(waiters[node]) && issued == old(issued) + {waiters[node]}
      ensures forall c <- old(issued) :: c.closed == (old(c.closed) || c.node == node)
      ensures waiters == old(waiters)[node := waiters[node]] && waiters[node].generation == old(Notified(node)) + 1
    {
      CloseIssued(node);
      var c := new Channel(node, Notified(node) + 1);
      waiters, issued := waiters[node := c], issued + {c};
    }

    /** The creator of operation `o` announces it, which is the step the rules describe; in
        the worlds of other nodes it happens elsewhere. */
    method Notify(node: string, ghost w: World, ghost o: nat) returns (ghost v: World)
      requires Valid() && Knows(w) && o in w.operations && node in w.names
      modifies this, issued
      ensures Valid() && node in waiters && fresh(waiters[node]) && issued == old(issued) + {waiters[node]}
      ensures forall c <- old(issued) :: c.closed == (old(c.closed) || c.node == node)
      ensures waiters == old(waiters)[node := waiters[node]]
      ensures Knows(v) && Announce(w, v, o, node)
      ensures forall name :: Notified(name) == old(Notified(name)) + if name == node then 1 else 0
    {
      Replace(node);
      v := Announcing(w, o, node);
      assert forall name :: Notified(name) == old(Notified(name)) + if name == node then 1 else 0;
    }
  }
}
