/**
 Per-user traffic accounting: counter readings are turned into deltas, staged
 durably under (boot id, sequence), and recorded by a server that skips a key it
 already has.
 */
module TrafficReport {
  import opened Common
  import opened Sums

  type BootId = string

  datatype Counter = Counter(authName: string, direction: string)

  /** One line of the statistics query; a name that is no user counter is skipped. */
  datatype Stat = Stat(counter: Option<Counter>, value: nat)

  datatype Delta = Delta(counter: Counter, bytes: nat, value: nat, epoch: nat)

  datatype Key = Key(boot: BootId, sequence: nat)

  datatype Report = Report(key: Key, deltas: seq<Delta>)

  /** The agent's state file, as far as traffic goes. */
  datatype State = State(
    boot: BootId,
    sequence: nat,
    counters: map<Counter, nat>,
    epochs: map<Counter, nat>,
    pending: Option<Report>)

  type Ledger = map<Key, seq<Delta>>

  /** `readings` are the readings of each counter that went into a saved state. */
  datatype World = World(
    disk: Option<State>,
    sent: set<Report>,
    ledger: Ledger,
    readings: map<Counter, seq<nat>>)

  function Get(m: map<Counter, nat>, c: Counter): nat {
    if c in m then m[c] else 0
  }

  function History(m: map<Counter, seq<nat>>, c: Counter): seq<nat> {
    if c in m then m[c] else []
  }

  // ----- What the bytes should be -----

  /** A counter that goes down has been reset; the reading before it closes an epoch.
      This is the sum of the last readings of all closed epochs. */
  function ClosedEpochs(h: seq<nat>): nat {
    if |h| <= 1 then 0
    else ClosedEpochs(h[..|h| - 1]) + if h[|h| - 1] < h[|h| - 2] then h[|h| - 2] else 0
  }

  function EpochCount(h: seq<nat>): nat {
    if |h| <= 1 then 0
    else EpochCount(h[..|h| - 1]) + if h[|h| - 1] < h[|h| - 2] then 1 else 0
  }

  function Last(h: seq<nat>): nat {
    if h == [] then 0 else h[|h| - 1]
  }

  /** All traffic a sequence of readings proves. */
  function Proven(h: seq<nat>): nat {
    ClosedEpochs(h) + Last(h)
  }

  function Bytes(deltas: seq<Delta>, c: Counter): nat {
    if deltas == [] then 0
    else Bytes(deltas[..|deltas| - 1], c) + if deltas[|deltas| - 1].counter == c then deltas[|deltas| - 1].bytes else 0
  }

  ghost function Recorded(ledger: Ledger, c: Counter): int {
    Sum(ledger.Keys, k => if k in ledger then Bytes(ledger[k], c) else 0)
  }

  ghost function Staged(w: World, c: Counter): int {
    if w.disk.Some? && w.disk.value.pending.Some? && w.disk.value.pending.value.key !in w.ledger
    then Bytes(w.disk.value.pending.value.deltas, c) else 0
  }

  /** Nothing is lost and nothing is counted twice. */
  ghost predicate Conserved(w: World) {
    forall c :: Recorded(w.ledger, c) + Staged(w, c) == Proven(History(w.readings, c))
  }

  /** The baseline the next reading is compared with is the last saved one. */
  ghost predicate Baseline(s: State, readings: map<Counter, seq<nat>>) {
    forall c :: Get(s.counters, c) == Last(History(readings, c)) && Get(s.epochs, c) == EpochCount(History(readings, c))
  }

  // ----- Folding one query into the state -----

  datatype Fold = Fold(counters: map<Counter, nat>, epochs: map<Counter, nat>, deltas: seq<Delta>)

  /** One reading: a value below the baseline opens a new epoch and counts in full. */
  function FoldStat(f: Fold, stat: Stat): Fold {
    if stat.counter.None? then f
    else
      var c := stat.counter.value;
      var previous, epoch := Get(f.counters, c), Get(f.epochs, c);
      var reset := stat.value < previous;
      var bytes := if reset then stat.value else stat.value - previous;
      var newEpoch := if reset then epoch + 1 else epoch;
      Fold(f.counters[c := stat.value], f.epochs[c := newEpoch],
           if bytes == 0 then f.deltas else f.deltas + [Delta(c, bytes, stat.value, newEpoch)])
  }

  function FoldAll(s: State, stats: seq<Stat>): Fold {
    if stats == [] then Fold(s.counters, s.epochs, [])
    else FoldStat(FoldAll(s, stats[..|stats| - 1]), stats[|stats| - 1])
  }

  function Readings(before: map<Counter, seq<nat>>, stats: seq<Stat>): map<Counter, seq<nat>> {
    if stats == [] then before
    else
      var rest := Readings(before, stats[..|stats| - 1]);
      var stat := stats[|stats| - 1];
      if stat.counter.None? then rest
      else rest[stat.counter.value := History(rest, stat.counter.value) + [stat.value]]
  }

  /** One more reading closes an epoch exactly when it is below the last one. */
  lemma AppendReading(h: seq<nat>, value: nat)
    ensures Last(h + [value]) == value
    ensures EpochCount(h + [value]) == EpochCount(h) + (if value < Last(h) then 1 else 0)
    ensures Proven(h + [value]) == Proven(h) + (if value < Last(h) then value else value - Last(h))
  {
    assert (h + [value])[..|h|] == h;
  }

  lemma AppendDelta(deltas: seq<Delta>, d: Delta, c: Counter)
    ensures Bytes(deltas + [d], c) == Bytes(deltas, c) + (if d.counter == c then d.bytes else 0)
  {
    assert (deltas + [d])[..|deltas|] == deltas;
  }

  lemma FoldStatIsExact(f: Fold, stat: Stat, h: seq<nat>, c: Counter)
    requires Get(f.counters, c) == Last(h) && Get(f.epochs, c) == EpochCount(h)
    ensures var g, k := FoldStat(f, stat), if stat.counter == Some(c) then h + [stat.value] else h;
      && Get(g.counters, c) == Last(k) && Get(g.epochs, c) == EpochCount(k)
      && Bytes(g.deltas, c) - Bytes(f.deltas, c) == Proven(k) - Proven(h)
  {
    AppendReading(h, stat.value);
    hide EpochCount, Proven, Last, Bytes;
    var g := FoldStat(f, stat);
    if g.deltas != f.deltas {
      AppendDelta(f.deltas, g.deltas[|f.deltas|], c);
    }
  }

  /** The deltas of a query are exactly the traffic its readings newly prove. */
  lemma {:induction false} FoldIsExact(s: State, stats: seq<Stat>, before: map<Counter, seq<nat>>, c: Counter)
    requires Get(s.counters, c) == Last(History(before, c)) && Get(s.epochs, c) == EpochCount(History(before, c))
    ensures var f, h := FoldAll(s, stats), History(Readings(before, stats), c);
      && Get(f.counters, c) == Last(h) && Get(f.epochs, c) == EpochCount(h)
      && Bytes(f.deltas, c) + Proven(History(before, c)) == Proven(h)
  {
    if stats != [] {
      var init, stat := stats[..|stats| - 1], stats[|stats| - 1];
      FoldIsExact(s, init, before, c);
      FoldStatIsExact(FoldAll(s, init), stat, History(Readings(before, init), c), c);
    }
  }

  lemma ReadingOfPrefix(stats: seq<Stat>, before: map<Counter, seq<nat>>, d: Delta, n: nat, k: nat)
    requires k < n <= |stats| && IsReading(stats[..n], before, d, k)
    ensures IsReading(stats, before, d, k)
  {
    hide Readings, History, EpochCount, Proven;
    assert stats[..n][..k] == stats[..k] && stats[..n][..k + 1] == stats[..k + 1];
  }

  /** What one reading adds to the deltas, if anything. */
  lemma LastIsReading(stats: seq<Stat>, before: map<Counter, seq<nat>>, f: Fold, d: Delta)
    requires stats != [] && d !in f.deltas && d in FoldStat(f, stats[|stats| - 1]).deltas
    requires var h := History(Readings(before, stats[..|stats| - 1]), d.counter);
      Get(f.counters, d.counter) == Last(h) && Get(f.epochs, d.counter) == EpochCount(h)
    ensures IsReading(stats, before, d, |stats| - 1)
  {
    var n, stat := |stats| - 1, stats[|stats| - 1];
    assert stats[..n + 1] == stats;
    assert FoldStat(f, stat).deltas == f.deltas + [d];
    AppendReading(History(Readings(before, stats[..n]), d.counter), stat.value);
    hide EpochCount, Proven, Last;
  }

  /** Every delta stands for one reading: its value, the epoch it belongs to, and the bytes
      that reading alone newly proves. */
  lemma {:induction false} DeltasAreReadings(s: State, stats: seq<Stat>, before: map<Counter, seq<nat>>, d: Delta)
    requires Baseline(s, before) && d in FoldAll(s, stats).deltas
    ensures exists k: nat :: k < |stats| && IsReading(stats, before, d, k)
  {
    hide IsReading, FoldStat, Proven, EpochCount, Readings;
    var n := |stats| - 1;
    if d in FoldAll(s, stats[..n]).deltas {
      DeltasAreReadings(s, stats[..n], before, d);
      var k: nat :| k < n && IsReading(stats[..n], before, d, k);
      ReadingOfPrefix(stats, before, d, n, k);
    } else {
      FoldIsExact(s, stats[..n], before, d.counter);
      LastIsReading(stats, before, FoldAll(s, stats[..n]), d);
    }
  }

  predicate IsReading(stats: seq<Stat>, before: map<Counter, seq<nat>>, d: Delta, k: nat)
    requires k < |stats|
  {
    var h, longer := History(Readings(before, stats[..k]), d.counter), History(Readings(before, stats[..k + 1]), d.counter);
    && stats[k].counter == Some(d.counter) && stats[k].value == d.value && d.bytes > 0
    && longer == h + [d.value] && d.epoch == EpochCount(longer) && d.bytes == Proven(longer) - Proven(h)
  }

  // ----- Steps -----

  /** A query was folded in and saved; a report is staged if there are deltas. */
  ghost predicate Save(w: World, v: World, loaded: State, stats: seq<Stat>) {
    && loaded.pending.None? && (w.disk == Some(loaded) || (w.disk.None? && Fresh(w, loaded)))
    && v == w.(readings := Readings(w.readings, stats), disk := Some(Saved(loaded, FoldAll(loaded, stats))))
  }

  function Saved(loaded: State, f: Fold): State {
    var s := loaded.(counters := f.counters, epochs := f.epochs);
    if f.deltas == [] then s
    else s.(sequence := s.sequence + 1, pending := Some(Report(Key(s.boot, s.sequence + 1), f.deltas)))
  }

  /** What a missing state file stands for. */
  ghost predicate Fresh(w: World, s: State) {
    s == State(s.boot, 0, map[], map[], None)
  }

  ghost predicate Send(w: World, v: World) {
    && w.disk.Some? && w.disk.value.pending.Some?
    && v == w.(sent := w.sent + {w.disk.value.pending.value})
  }

  /** A report reaches the server, now or much later. */
  ghost predicate Deliver(w: World, v: World, r: Report) {
    r in w.sent && v == w.(ledger := Recording(w.ledger, r))
  }

  function Recording(ledger: Ledger, r: Report): Ledger {
    if r.key in ledger then ledger else ledger[r.key := r.deltas]
  }

  /** The accepted report is dropped from the state file. */
  ghost predicate Acknowledge(w: World, v: World) {
    && w.disk.Some? && w.disk.value.pending.Some? && w.disk.value.pending.value.key in w.ledger
    && v == w.(disk := Some(w.disk.value.(pending := None)))
  }

  ghost predicate Step(w: World, v: World) {
    || w == v || (exists loaded, stats :: Save(w, v, loaded, stats))
    || Send(w, v) || (exists r :: Deliver(w, v, r)) || Acknowledge(w, v)
  }

  ghost predicate Legal(run: seq<World>) {
    && run != [] && run[0] == World(None, {}, map[], map[])
    && forall i :: 0 < i < |run| ==> Step(run[i - 1], run[i])
  }

  // ----- Invariant -----

  ghost predicate Numbered(w: World, s: State) {
    && (s.pending.Some? ==> s.pending.value.key == Key(s.boot, s.sequence) && s.sequence > 0)
    && (forall r <- w.sent :: r.key.boot == s.boot && 1 <= r.key.sequence <= s.sequence)
    && (forall r <- w.sent :: s.pending.Some? && r.key.sequence == s.sequence ==> r == s.pending.value)
    // every number but the staged one has reached the server: no gaps
    && (forall n :: 1 <= n <= s.sequence && (s.pending.Some? ==> n < s.sequence) ==> Key(s.boot, n) in w.ledger)
  }

  ghost predicate Inv(w: World) {
    && Conserved(w)
    && (w.disk.None? ==> w.sent == {} && w.ledger == map[] && w.readings == map[])
    && (w.disk.Some? ==> Baseline(w.disk.value, w.readings) && Numbered(w, w.disk.value))
    // a key stands for one content
    && (forall r <- w.sent, q <- w.sent :: r.key == q.key ==> r == q)
    && (forall k <- w.ledger :: Report(k, w.ledger[k]) in w.sent)
  }

  lemma RecordedInsert(ledger: Ledger, r: Report, c: Counter)
    requires r.key !in ledger
    ensures Recorded(ledger[r.key := r.deltas], c) == Recorded(ledger, c) + Bytes(r.deltas, c)
  {
    var after := ledger[r.key := r.deltas];
    var f := k => if k in after then Bytes(after[k], c) else 0;
    SumRemove(after.Keys, f, r.key);
    assert after.Keys - {r.key} == ledger.Keys;
    SumSame(ledger.Keys, f, k => if k in ledger then Bytes(ledger[k], c) else 0);
  }

  lemma SaveKeepsInv(w: World, v: World, loaded: State, stats: seq<Stat>)
    requires Inv(w) && Save(w, v, loaded, stats)
    ensures Inv(v)
  {
    var key := Key(loaded.boot, loaded.sequence + 1);
    assert forall k <- w.ledger :: Report(k, w.ledger[k]).key == k && Report(k, w.ledger[k]) in w.sent;
    assert key !in w.ledger;
    forall c
      ensures Recorded(v.ledger, c) + Staged(v, c) == Proven(History(v.readings, c))
      ensures Get(v.disk.value.counters, c) == Last(History(v.readings, c))
      ensures Get(v.disk.value.epochs, c) == EpochCount(History(v.readings, c))
    {
      FoldIsExact(loaded, stats, w.readings, c);
    }
  }

  lemma DeliverKeepsInv(w: World, v: World, r: Report)
    requires Inv(w) && Deliver(w, v, r)
    ensures Inv(v)
  {
    if r.key !in w.ledger {
      forall c
        ensures Recorded(v.ledger, c) + Staged(v, c) == Recorded(w.ledger, c) + Staged(w, c)
      {
        RecordedInsert(w.ledger, r, c);
      }
    }
  }

  lemma StepKeepsInv(w: World, v: World)
    requires Inv(w) && Step(w, v)
    ensures Inv(v)
  {
    if loaded, stats :| Save(w, v, loaded, stats) {
      SaveKeepsInv(w, v, loaded, stats);
    } else if r :| Deliver(w, v, r) {
      DeliverKeepsInv(w, v, r);
    }
  }

  lemma {:induction false} RunInv(run: seq<World>, n: nat)
    requires Legal(run) && n < |run|
    ensures Inv(run[n])
  {
    if n > 0 {
      RunInv(run, n - 1);
      StepKeepsInv(run[n - 1], run[n]);
    } else {
      assert forall c :: Proven(History(map[], c)) == 0;
    }
  }

  /** Over every run of readings, resets, crashes and lost responses, and for every
      counter: recorded bytes plus staged bytes are the closed epochs plus the saved
      baseline, and sequence numbers have no gap and one content each. */
  lemma TrafficIsConserved(run: seq<World>, n: nat, c: Counter)
    requires Legal(run) && n < |run|
    ensures Recorded(run[n].ledger, c) + Staged(run[n], c) == ClosedEpochs(History(run[n].readings, c)) +
      (if run[n].disk.Some? then Get(run[n].disk.value.counters, c) else 0)
    ensures forall r <- run[n].sent, q <- run[n].sent :: r.key == q.key ==> r == q
    ensures run[n].disk.Some? ==> Numbered(run[n], run[n].disk.value)
  {
    RunInv(run, n);
  }

  lemma ExtendLegal(run: seq<World>, next: World)
    requires Legal(run) && Step(run[|run| - 1], next)
    ensures Legal(run + [next])
  {
    var longer := run + [next];
    forall i | 0 < i < |longer|
      ensures Step(longer[i - 1], longer[i])
    {
      if i < |run| {
        assert longer[i - 1] == run[i - 1] && longer[i] == run[i];
      }
    }
  }
}

/** The agent's traffic cycle, against a server reached through a lossy network. */
module TrafficAgent {
  import opened Common
  import opened TrafficReport

  class Server {
    var ledger: Ledger

    constructor ()
      ensures ledger == map[]
    {
      ledger := map[];
    }

    /** Idempotent: the unique key (boot id, sequence) skips a report seen before. */
    method RecordTrafficReport(r: Report)
      modifies this
      ensures ledger == Recording(old(ledger), r)
    {
      if r.key !in ledger {
        ledger := ledger[r.key := r.deltas];
      }
    }
  }

  class Agent {
    const server: Server
    var disk: Option<State>
    ghost var sent: set<Report>
    ghost var readings: map<Counter, seq<nat>>
    ghost var run: seq<World>

    ghost function Now(): World
      reads this, server
    {
      World(disk, sent, server.ledger, readings)
    }

    ghost predicate Valid()
      reads this, server
    {
      Legal(run) && run[|run| - 1] == Now()
    }

    constructor ()
      ensures Valid() && disk.None?
    {
      disk, sent, readings := None, {}, map[];
      var s := new Server();
      server := s;
      run := [World(None, {}, map[], map[])];
      new;
      assert run[0] == Now();
    }

    ghost method Commit()
      requires Legal(run) && Step(run[|run| - 1], Now())
      modifies this`run
      ensures Valid() && run == old(run) + [Now()]
    {
      ExtendLegal(run, Now());
      run := run + [Now()];
    }

    /** Post the staged report: the request or its response may be lost. */
    method PostPending() returns (ok: bool)
      requires Valid() && disk.Some? && disk.value.pending.Some?
      modifies this`sent, this`run, server
      ensures Valid() && old(run) <= run
      ensures ok ==> disk.value.pending.value.key in server.ledger
    {
      var r := disk.value.pending.value;
      sent := sent + {r};
      assert Send(old(Now()), Now());
      Commit();
      if * {
        return false;
      }
      ok := Arrive(r);
    }

    method Arrive(r: Report) returns (ok: bool)
      requires Valid() && r in sent
      modifies this`run, server
      ensures Valid() && old(run) <= run && r.key in server.ledger
    {
      server.RecordTrafficReport(r);
      assert Deliver(old(Now()), Now(), r);
      Commit();
      ok := *;
    }

    method DropPending() returns (o: Outcome)
      requires Valid() && disk.Some? && disk.value.pending.Some? && disk.value.pending.value.key in server.ledger
      modifies this`disk, this`run
      ensures Valid() && old(run) <= run
      ensures disk == if o.Done? then Some(old(disk).value.(pending := None)) else old(disk)
    {
      if * {
        return Failed;
      }
      disk := Some(disk.value.(pending := None));
      assert Acknowledge(old(Now()), Now());
      Commit();
      return Done;
    }

    method SaveFold(loaded: State, stats: seq<Stat>, f: Fold) returns (o: Outcome)
      requires Valid() && loaded.pending.None? && f == FoldAll(loaded, stats)
      requires disk == Some(loaded) || (disk.None? && Fresh(Now(), loaded))
      modifies this`disk, this`readings, this`run
      ensures Valid() && old(run) <= run
      ensures disk == if o.Done? then Some(Saved(loaded, f)) else old(disk)
      ensures readings == if o.Done? then Readings(old(readings), stats) else old(readings)
    {
      if * {
        return Failed;
      }
      var state := loaded.(counters := f.counters, epochs := f.epochs);
      if f.deltas != [] {
        state := state.(sequence := state.sequence + 1);
        state := state.(pending := Some(Report(Key(state.boot, state.sequence), f.deltas)));
      }
      disk := Some(state);
      readings := Readings(readings, stats);
      assert Save(old(Now()), Now(), loaded, stats);
      Commit();
      return Done;
    }

    /** Fold every statistic into the counters and collect the deltas. */
    static method ReadCounters(state: State, stats: seq<Stat>) returns (f: Fold)
      ensures f == FoldAll(state, stats)
    {
      var counters: map<Counter, nat> := state.counters;
      var epochs: map<Counter, nat> := state.epochs;
      var deltas: seq<Delta> := [];
      var i := 0;
      while i < |stats|
        invariant 0 <= i <= |stats|
        invariant Fold(counters, epochs, deltas) == FoldAll(state, stats[..i])
      {
        assert stats[..i + 1][..i] == stats[..i];
        if stats[i].counter.Some? {
          var c, value := stats[i].counter.value, stats[i].value;
          var epoch := Get(epochs, c);
          var delta: int := (value as int) - Get(counters, c);
          if delta < 0 {
            epoch, delta := epoch + 1, value;
          }
          counters, epochs := counters[c := value], epochs[c := epoch];
          if delta > 0 {
            deltas := deltas + [Delta(c, delta, value, epoch)];
          }
        }
        i := i + 1;
      }
      assert stats[..|stats|] == stats;
      return Fold(counters, epochs, deltas);
    }

    /** One traffic cycle. A cycle that ends early is as good as a crash there: the
        next cycle starts from the saved state. */
    method ReportTraffic(freshBoot: BootId, stats: Option<seq<Stat>>) returns (o: Outcome)
      requires Valid()
      modifies this, server
      ensures Valid() && old(run) <= run
      ensures o.Done? ==> stats.Some? && readings == Readings(old(readings), stats.value)
      ensures o.Done? ==> disk.Some? && disk.value.pending.None?
    {
      var state := if disk.Some? then disk.value else State(freshBoot, 0, map[], map[], None);
      if state.pending.Some? {
        var ok := PostPending();
        if !ok {
          return Failed;
        }
        o := DropPending();
        if !o.Done? {
          return;
        }
        state := disk.value;
      }
      if stats.None? {
        return Failed; // the statistics service did not answer
      }
      var f := ReadCounters(state, stats.value);
      o := SaveFold(state, stats.value, f);
      if !o.Done? || f.deltas == [] {
        return;
      }
      var ok := PostPending();
      if !ok {
        return Failed;
      }
      o := DropPending();
    }
  }
}
