/**
 The connection collector: what every stream event and every drain does to the
 tracked connections, the pending snapshots and the coverage counters.

 `Books` are history variables; nothing ever reads them back into the collector.
 */
module ConnectionCollector {
  import opened Common
  import opened Sums
  import opened ClosedIdRing
  import opened ConnectionBucket

  const MAX_TRACKED := 4096
  const MAX_BUCKETS := 2000
  const MAX_CLOSED_IDS := 2048

  datatype SessionKey = SessionKey(id: string, startedAt: string)

  /** A connection as the stream describes it; `session` is absent when its dimensions
      cannot be normalised. Instants are milliseconds, zero meaning none. */
  datatype Connection = Connection(
    id: string,
    session: Option<SessionKey>,
    attributed: bool,
    createdAt: int,
    closedAt: int,
    uplinkTotal: int,
    downlinkTotal: int)

  datatype Event =
    | New(id: string, connection: Option<Connection>)
    | Update(id: string, uplinkDelta: int, downlinkDelta: int)
    | Closed(id: string, connection: Option<Connection>, closedAt: int)
    | Unknown

  /** The totals already recorded are the high-water marks. `entry` is the identity of the
      object in the map: which of all entries ever made it is. */
  datatype Tracked = Tracked(
    entry: nat,
    session: SessionKey,
    attributed: bool,
    createdAt: int,
    uplink: nat,
    downlink: nat,
    epoch: nat,
    counted: bool)
  {
    function Total(): nat {
      uplink + downlink
    }
  }

  datatype Coverage = Coverage(
    observed: nat,
    attributed: nat,
    unattributed: nat,
    orphaned: nat,
    resets: nat,
    dropped: nat,
    bytesObserved: nat,
    bytesAttributed: nat)

  const NOTHING := Coverage(0, 0, 0, 0, 0, 0, 0, 0)

  /** A snapshot made for an entry, and whether there was room to store it. */
  datatype Shot = Shot(entry: nat, session: SessionKey, measures: Measures, stored: bool)

  /** Bytes already drained, bytes refused at the bucket cap, the final high-water marks of
      the connections no longer tracked, all snapshots made, and all drained bucket maps. */
  datatype Books = Books(
    drained: nat,
    refused: nat,
    retired: nat,
    taken: seq<Shot>,
    shipped: seq<map<SessionKey, Measures>>)

  datatype State = State(
    live: map<string, Tracked>,
    entries: nat,
    buckets: map<SessionKey, Measures>,
    accounted: seq<string>,
    coverage: Coverage,
    epoch: nat,
    subscribed: bool,
    startupClose: int,
    closeHighWater: int,
    books: Books)

  function Positive(n: int): nat {
    if n > 0 then n else 0
  }

  function Start(startupClose: int): State {
    State(map[], 0, map[], [], NOTHING, 0, false, startupClose, Positive(startupClose), Books(0, 0, 0, [], []))
  }

  // ----- Single actions -----

  function Advanced(t: Tracked, uplinkTotal: int, downlinkTotal: int): Tracked {
    t.(uplink := if uplinkTotal > t.uplink then uplinkTotal else t.uplink,
       downlink := if downlinkTotal > t.downlink then downlinkTotal else t.downlink)
  }

  function Touch(c: Coverage, t: Tracked): Coverage {
    if t.counted then c
    else if t.attributed then c.(observed := c.observed + 1, attributed := c.attributed + 1)
    else c.(observed := c.observed + 1, unattributed := c.unattributed + 1)
  }

  function Touched(s: State, t: Tracked): State {
    s.(coverage := Touch(s.coverage, t))
  }

  function Dropped(s: State): State {
    s.(coverage := s.coverage.(dropped := s.coverage.dropped + 1))
  }

  function Orphaned(s: State): State {
    s.(coverage := s.coverage.(orphaned := s.coverage.orphaned + 1))
  }

  function Snapshot(t: Tracked, at: int, closes: nat, duration: nat): Measures {
    Measures(1, closes, t.uplink, t.downlink, duration, At(at), At(at))
  }

  /** `grown` bytes of `t` are new. A snapshot that finds the map full is refused. */
  function Record(s: State, t: Tracked, at: int, grown: nat, opens: nat, closes: nat, duration: nat): State {
    if grown == 0 && opens == 0 && closes == 0 then s
    else
      var snapshot := Snapshot(t, at, closes, duration);
      if t.session !in s.buckets && |s.buckets| >= MAX_BUCKETS then
        Dropped(s).(books := s.books.(
          refused := s.books.refused + grown,
          taken := s.books.taken + [Shot(t.entry, t.session, snapshot, false)]))
      else
        var merged := if t.session in s.buckets then Merged(s.buckets[t.session], snapshot, true) else snapshot;
        s.(buckets := s.buckets[t.session := merged],
           coverage := s.coverage.(
             bytesObserved := s.coverage.bytesObserved + grown,
             bytesAttributed := s.coverage.bytesAttributed + if t.attributed then grown else 0),
           books := s.books.(taken := s.books.taken + [Shot(t.entry, t.session, snapshot, true)]))
  }

  function Close(s: State, id: string, t: Tracked, closedAt: int, grown: nat, opens: nat): State {
    var duration := if t.createdAt > 0 && closedAt > t.createdAt then closedAt - t.createdAt else 0;
    Retire(Record(s, t, closedAt, grown, opens, 1, duration), id, t, closedAt)
  }

  /** The connection is forgotten, its id is not. */
  function Retire(s: State, id: string, t: Tracked, closedAt: int): State {
    s.(live := s.live - {id},
       accounted := Remember(s.accounted, id, MAX_CLOSED_IDS),
       closeHighWater := if closedAt > s.closeHighWater then closedAt else s.closeHighWater,
       books := s.books.(retired := s.books.retired + t.Total()))
  }

  function Fresh(s: State, c: Connection): Tracked
    requires c.session.Some?
  {
    Tracked(s.entries, c.session.value, c.attributed, c.createdAt, 0, 0, s.epoch, false)
  }

  /** One more entry was made. */
  function Entered(s: State, t: Tracked): State {
    Touched(s, t).(entries := s.entries + 1)
  }

  function Marked(s: State, t: Tracked): (m: Tracked)
    ensures m.Total() == t.Total()
  {
    t.(epoch := s.epoch, counted := true)
  }

  /** An event about a connection already tracked. */
  function Seen(s: State, id: string, t: Tracked, at: int, closedAt: int): State
    requires id in s.live && t.Total() >= s.live[id].Total()
  {
    var marked := Marked(s, t);
    var grown := t.Total() - s.live[id].Total();
    var touched := Touched(s, s.live[id]);
    if closedAt != 0 then SeenClosed(s, id, t, closedAt)
    else Record(touched.(live := s.live[id := marked]), marked, at, grown, 0, 0, 0)
  }

  /** A closed connection of which nothing was recorded: all its bytes are new. */
  function Recover(s: State, id: string, c: Connection, closedAt: int): State {
    if c.session.None? then Dropped(s)
    else
      var t := Advanced(Fresh(s, c), c.uplinkTotal, c.downlinkTotal);
      Close(Entered(s, t), id, t.(counted := true), closedAt, t.Total(), 1)
  }

  function Open(s: State, id: string, c: Connection, now: int): State {
    if |s.live| >= MAX_TRACKED || c.session.None? then Dropped(s)
    else
      var t := Advanced(Fresh(s, c), c.uplinkTotal, c.downlinkTotal);
      var marked := t.(counted := true);
      Record(Entered(s, t).(live := s.live[id := marked]), marked, now, t.Total(), 1, 0, 0)
  }

  function EventId(e: Event): string
    requires e.New? && e.connection.Some?
  {
    if e.id != "" then e.id else e.connection.value.id
  }

  function ApplyNew(s: State, e: Event, now: int): State
    requires e.New?
  {
    if e.connection.None? || EventId(e) == "" then s
    else
      var id, c := EventId(e), e.connection.value;
      if id in s.live then
        Seen(s, id, Advanced(s.live[id], c.uplinkTotal, c.downlinkTotal), now, c.closedAt)
      else if c.closedAt == 0 then Open(s, id, c, now)
      else if id in s.accounted || c.closedAt <= s.startupClose then s
      else if c.session.None? then Dropped(s)
      else Recover(Orphaned(s), id, c, c.closedAt)
  }

  function Ticked(t: Tracked, e: Event): (u: Tracked)
    requires e.Update?
    ensures u.Total() >= t.Total()
  {
    t.(uplink := t.uplink + Positive(e.uplinkDelta), downlink := t.downlink + Positive(e.downlinkDelta))
  }

  function ApplyUpdate(s: State, e: Event, now: int): State
    requires e.Update?
  {
    if e.id !in s.live then s
    else
      Seen(s, e.id, Ticked(s.live[e.id], e), now, 0)
  }

  function CloseInstant(e: Event, now: int): int
    requires e.Closed?
  {
    if e.closedAt != 0 then e.closedAt
    else if e.connection.Some? && e.connection.value.closedAt != 0 then e.connection.value.closedAt
    else now
  }

  /** A close usually carries the final totals. */
  function LastSeen(s: State, e: Event): (t: Tracked)
    requires e.Closed? && e.id in s.live
    ensures t.Total() >= s.live[e.id].Total()
  {
    if e.connection.None? then s.live[e.id]
    else Advanced(s.live[e.id], e.connection.value.uplinkTotal, e.connection.value.downlinkTotal)
  }

  function ApplyClosed(s: State, e: Event, now: int): State
    requires e.Closed?
  {
    if e.id == "" then s
    else if e.id in s.live then
      SeenClosed(s, e.id, LastSeen(s, e), CloseInstant(e, now))
    else if e.id in s.accounted then s
    else if e.connection.None? then Orphaned(s)
    else Recover(Orphaned(s), e.id, e.connection.value, CloseInstant(e, now))
  }

  function SeenClosed(s: State, id: string, t: Tracked, closedAt: int): State
    requires id in s.live && t.Total() >= s.live[id].Total()
  {
    Close(Touched(s, s.live[id]), id, Marked(s, t), closedAt, t.Total() - s.live[id].Total(), 0)
  }

  function ApplyEvent(s: State, e: Event, now: int): State {
    match e
    case New(_, _) => ApplyNew(s, e, now)
    case Update(_, _, _) => ApplyUpdate(s, e, now)
    case Closed(_, _, _) => ApplyClosed(s, e, now)
    case Unknown => s
  }

  function ApplyEvents(s: State, events: seq<Event>, now: int): State {
    if events == [] then s
    else ApplyEvent(ApplyEvents(s, events[..|events| - 1], now), events[|events| - 1], now)
  }

  /** A full-state replay starts a new epoch. */
  function Begin(s: State, reset: bool): State {
    if !reset then s
    else
      var c := if s.subscribed then s.coverage.(resets := s.coverage.resets + 1) else s.coverage;
      s.(epoch := s.epoch + 1, coverage := c, subscribed := true)
  }

  function Stale(s: State): set<string> {
    set id | id in s.live && s.live[id].epoch != s.epoch
  }

  /** A full-state replay that does not mention a connection proves it is gone. */
  ghost function Sweep(s: State): State {
    s.(live := s.live - Stale(s), books := s.books.(retired := s.books.retired + Growth(s.live, Stale(s))))
  }

  ghost function Growth(live: map<string, Tracked>, ids: set<string>): nat {
    GrowthIsNatural(live, ids);
    Sum(ids, TotalOf(live))
  }

  function TotalOf(live: map<string, Tracked>): string -> int {
    id => if id in live then live[id].Total() else 0
  }

  lemma {:induction false} GrowthIsNatural(live: map<string, Tracked>, ids: set<string>)
    ensures Sum(ids, TotalOf(live)) >= 0
  {
    if ids != {} {
      var id :| id in ids;
      SumRemove(ids, TotalOf(live), id);
      GrowthIsNatural(live, ids - {id});
    }
  }

  ghost function Apply(s: State, reset: bool, events: seq<Event>, now: int): State {
    var after := ApplyEvents(Begin(s, reset), events, now);
    if reset then Sweep(after) else after
  }

  predicate NothingToReport(s: State) {
    s.buckets == map[] && s.coverage == NOTHING
  }

  function Uncounted(live: map<string, Tracked>): map<string, Tracked> {
    map id | id in live :: live[id].(counted := false)
  }

  function Drain(s: State): State {
    if NothingToReport(s) then s
    else s.(buckets := map[], coverage := NOTHING,
            live := Uncounted(s.live),
            books := s.books.(
              drained := s.books.drained + s.coverage.bytesObserved,
              shipped := s.books.shipped + [s.buckets]))
  }

  datatype Op = Batch(reset: bool, events: seq<Event>, now: int) | Report

  ghost function After(s: State, ops: seq<Op>): State {
    if ops == [] then s
    else
      var before, op := After(s, ops[..|ops| - 1]), ops[|ops| - 1];
      match op
      case Batch(reset, events, now) => Apply(before, reset, events, now)
      case Report => Drain(before)
  }

  // ----- Invariant -----

  /** Every byte a high-water mark ever rose by was drained, waits to be drained, or
      was refused. */
  ghost predicate Conserved(s: State) {
    s.books.drained + s.coverage.bytesObserved + s.books.refused == Growth(s.live, s.live.Keys) + s.books.retired
  }

  predicate CoverageConsistent(c: Coverage) {
    c.bytesAttributed <= c.bytesObserved && c.observed == c.attributed + c.unattributed
  }

  predicate Bounded(s: State) {
    && |s.live| <= MAX_TRACKED && |s.buckets| <= MAX_BUCKETS
    && |s.accounted| <= MAX_CLOSED_IDS && Distinct(s.accounted)
  }

  predicate Epochs(s: State) {
    forall id <- s.live :: s.live[id].epoch <= s.epoch
  }

  ghost predicate Inv(s: State) {
    Conserved(s) && CoverageConsistent(s.coverage) && Bounded(s) && Epochs(s)
  }

  lemma GrowthPut(live: map<string, Tracked>, id: string, t: Tracked)
    ensures Growth(live[id := t], live.Keys + {id}) ==
      Growth(live, live.Keys) - (if id in live then live[id].Total() else 0) + t.Total()
  {
    var after := live[id := t];
    SumRemove(after.Keys, TotalOf(after), id);
    assert after.Keys == live.Keys + {id};
    if id in live {
      SumRemove(live.Keys, TotalOf(live), id);
      assert after.Keys - {id} == live.Keys - {id};
    } else {
      assert after.Keys - {id} == live.Keys;
    }
    SumSame(live.Keys - {id}, TotalOf(after), TotalOf(live));
    assert id !in live ==> live.Keys - {id} == live.Keys;
  }

  lemma GrowthDrop(live: map<string, Tracked>, id: string)
    ensures Growth(live - {id}, (live - {id}).Keys) == Growth(live, live.Keys) - if id in live then live[id].Total() else 0
  {
    assert (live - {id}).Keys == live.Keys - {id};
    SumSame(live.Keys - {id}, TotalOf(live - {id}), TotalOf(live));
    if id in live {
      SumRemove(live.Keys, TotalOf(live), id);
    } else {
      assert live.Keys - {id} == live.Keys;
    }
  }

  lemma {:induction false} GrowthSplit(live: map<string, Tracked>, ids: set<string>)
    requires ids <= live.Keys
    ensures Growth(live, live.Keys) == Growth(live - ids, (live - ids).Keys) + Growth(live, ids)
  {
    SumSplit(live.Keys, ids, TotalOf(live));
    assert (live - ids).Keys == live.Keys - ids;
    SumSame(live.Keys - ids, TotalOf(live - ids), TotalOf(live));
  }

  /** What one event moves between the books: `grown` is what high-water marks rose by. */
  lemma RecordMoves(s: State, t: Tracked, at: int, grown: nat, opens: nat, closes: nat, duration: nat)
    requires CoverageConsistent(s.coverage) && |s.buckets| <= MAX_BUCKETS
    ensures var r := Record(s, t, at, grown, opens, closes, duration);
      && CoverageConsistent(r.coverage) && |r.buckets| <= MAX_BUCKETS
      && r == s.(buckets := r.buckets, coverage := r.coverage, books := r.books)
      && r.coverage.bytesObserved + r.books.refused == s.coverage.bytesObserved + s.books.refused + grown
      && r.books == s.books.(refused := r.books.refused, taken := r.books.taken)
  {
  }

  /** Bytes moved while an event is half applied. */
  ghost predicate Ahead(s: State, ahead: nat) {
    && s.books.drained + s.coverage.bytesObserved + s.books.refused == Growth(s.live, s.live.Keys) + s.books.retired + ahead
    && CoverageConsistent(s.coverage) && Bounded(s) && Epochs(s)
  }

  lemma RetireKeepsInv(s: State, id: string, t: Tracked, closedAt: int, grown: nat)
    requires Ahead(s, grown) && t.Total() == grown + if id in s.live then s.live[id].Total() else 0
    ensures Inv(Retire(s, id, t, closedAt))
  {
    GrowthDrop(s.live, id);
    RememberKeepsDistinct(s.accounted, id, MAX_CLOSED_IDS);
    CardinalityDrop(s.live, id);
  }

  lemma CardinalityDrop(live: map<string, Tracked>, id: string)
    ensures |live - {id}| <= |live|
  {
    assert (live - {id}).Keys == live.Keys - {id};
  }

  lemma CloseKeepsInv(s: State, id: string, t: Tracked, closedAt: int, grown: nat, opens: nat, after: State)
    requires Inv(s) && t.Total() == grown + if id in s.live then s.live[id].Total() else 0
    requires after == Close(s, id, t, closedAt, grown, opens)
    ensures Inv(after)
  {
    var duration := if t.createdAt > 0 && closedAt > t.createdAt then closedAt - t.createdAt else 0;
    hide Record, Retire;
    RecordMoves(s, t, closedAt, grown, opens, 1, duration);
    RetireKeepsInv(Record(s, t, closedAt, grown, opens, 1, duration), id, t, closedAt, grown);
  }

  /** High-water marks already rose, the bytes are not booked yet. */
  ghost predicate Behind(s: State, grown: nat) {
    && s.books.drained + s.coverage.bytesObserved + s.books.refused + grown == Growth(s.live, s.live.Keys) + s.books.retired
    && CoverageConsistent(s.coverage) && Bounded(s) && Epochs(s)
  }

  lemma PutFallsBehind(s: State, id: string, t: Tracked, grown: nat)
    requires Inv(s) && t.Total() == grown + if id in s.live then s.live[id].Total() else 0
    requires id in s.live || |s.live| < MAX_TRACKED
    requires t.epoch == s.epoch
    ensures Behind(s.(live := s.live[id := t]), grown)
  {
    GrowthPut(s.live, id, t);
    assert s.live[id := t].Keys == s.live.Keys + {id};
  }

  lemma RecordCatchesUp(s: State, t: Tracked, at: int, grown: nat, opens: nat)
    requires Behind(s, grown)
    ensures Inv(Record(s, t, at, grown, opens, 0, 0))
  {
    hide Record, Growth;
    RecordMoves(s, t, at, grown, opens, 0, 0);
  }

  lemma KeepKeepsInv(s: State, id: string, t: Tracked, at: int, grown: nat, opens: nat, after: State)
    requires Inv(s) && t.Total() == grown + if id in s.live then s.live[id].Total() else 0
    requires id in s.live || |s.live| < MAX_TRACKED
    requires t.epoch == s.epoch
    requires after == Record(s.(live := s.live[id := t]), t, at, grown, opens, 0, 0)
    ensures Inv(after)
  {
    hide Record, Behind, Growth;
    PutFallsBehind(s, id, t, grown);
    RecordCatchesUp(s.(live := s.live[id := t]), t, at, grown, opens);
  }

  lemma CountersKeepInv(s: State, t: Tracked)
    requires Inv(s)
    ensures Inv(Touched(s, t)) && Inv(Entered(s, t)) && Inv(Orphaned(s)) && Inv(Dropped(s))
  {
  }

  lemma SeenClosedKeepsInv(s: State, id: string, t: Tracked, closedAt: int, after: State)
    requires Inv(s) && id in s.live && t.Total() >= s.live[id].Total()
    requires after == SeenClosed(s, id, t, closedAt)
    ensures Inv(after)
  {
    hide Close;
    CountersKeepInv(s, s.live[id]);
    CloseKeepsInv(Touched(s, s.live[id]), id, Marked(s, t), closedAt, t.Total() - s.live[id].Total(), 0, after);
  }

  lemma SeenKeepsInv(s: State, id: string, t: Tracked, at: int, closedAt: int, after: State)
    requires Inv(s) && id in s.live && t.Total() >= s.live[id].Total()
    requires after == Seen(s, id, t, at, closedAt)
    ensures Inv(after)
  {
    hide Record, SeenClosed;
    if closedAt != 0 {
      SeenClosedKeepsInv(s, id, t, closedAt, after);
    } else {
      CountersKeepInv(s, s.live[id]);
      var marked := Marked(s, t);
      KeepKeepsInv(Touched(s, s.live[id]), id, marked, at, t.Total() - s.live[id].Total(), 0, after);
    }
  }

  lemma RecoverKeepsInv(s: State, id: string, c: Connection, closedAt: int)
    requires Inv(s) && id !in s.live
    ensures Inv(Recover(s, id, c, closedAt))
  {
    hide Close;
    if c.session.Some? {
      var t := Advanced(Fresh(s, c), c.uplinkTotal, c.downlinkTotal);
      CloseKeepsInv(Entered(s, t), id, t.(counted := true), closedAt, t.Total(), 1, Recover(s, id, c, closedAt));
    }
  }

  lemma OpenKeepsInv(s: State, id: string, c: Connection, now: int)
    requires Inv(s) && id !in s.live
    ensures Inv(Open(s, id, c, now))
  {
    hide Record;
    if |s.live| < MAX_TRACKED && c.session.Some? {
      var t := Advanced(Fresh(s, c), c.uplinkTotal, c.downlinkTotal);
      KeepKeepsInv(Entered(s, t), id, t.(counted := true), now, t.Total(), 1, Open(s, id, c, now));
    }
  }

  lemma UnknownNewKeepsInv(s: State, id: string, c: Connection, now: int)
    requires Inv(s) && id !in s.live
    ensures Inv(if c.closedAt == 0 then Open(s, id, c, now) else Recover(Orphaned(s), id, c, c.closedAt))
  {
    hide Open, Recover;
    if c.closedAt == 0 {
      OpenKeepsInv(s, id, c, now);
    } else {
      if c.session.Some? {
        CountersKeepInv(s, Fresh(s, c));
      }
      RecoverKeepsInv(Orphaned(s), id, c, c.closedAt);
    }
  }

  lemma NewKeepsInv(s: State, e: Event, now: int)
    requires Inv(s) && e.New?
    ensures Inv(ApplyNew(s, e, now))
  {
    hide Open, Recover, Seen;
    if e.connection.Some? && EventId(e) != "" {
      var id, c := EventId(e), e.connection.value;
      if id in s.live {
        SeenKeepsInv(s, id, Advanced(s.live[id], c.uplinkTotal, c.downlinkTotal), now, c.closedAt,
          ApplyNew(s, e, now));
      } else {
        UnknownNewKeepsInv(s, id, c, now);
      }
    }
  }

  lemma UpdateKeepsInv(s: State, e: Event, now: int)
    requires Inv(s) && e.Update?
    ensures Inv(ApplyUpdate(s, e, now))
  {
    hide Seen, Ticked;
    if e.id in s.live {
      SeenKeepsInv(s, e.id, Ticked(s.live[e.id], e), now, 0, ApplyUpdate(s, e, now));
    }
  }

  lemma ClosedKeepsInv(s: State, e: Event, now: int)
    requires Inv(s) && e.Closed?
    ensures Inv(ApplyClosed(s, e, now))
  {
    hide SeenClosed;
    if e.id == "" {
    } else if e.id in s.live {
      SeenClosedKeepsInv(s, e.id, LastSeen(s, e), CloseInstant(e, now), ApplyClosed(s, e, now));
    } else if e.connection.Some? {
      RecoverKeepsInv(Orphaned(s), e.id, e.connection.value, CloseInstant(e, now));
    }
  }

  lemma EventKeepsInv(s: State, e: Event, now: int)
    requires Inv(s)
    ensures Inv(ApplyEvent(s, e, now))
  {
    hide ApplyNew, ApplyUpdate, ApplyClosed;
    match e {
      case New(_, _) => NewKeepsInv(s, e, now);
      case Update(_, _, _) => UpdateKeepsInv(s, e, now);
      case Closed(_, _, _) => ClosedKeepsInv(s, e, now);
      case Unknown =>
    }
  }

  lemma {:induction false} EventsKeepInv(s: State, events: seq<Event>, now: int)
    requires Inv(s)
    ensures Inv(ApplyEvents(s, events, now))
  {
    if events != [] {
      EventsKeepInv(s, events[..|events| - 1], now);
      EventKeepsInv(ApplyEvents(s, events[..|events| - 1], now), events[|events| - 1], now);
    }
  }

  lemma SweepKeepsInv(s: State)
    requires Inv(s)
    ensures Inv(Sweep(s))
  {
    GrowthSplit(s.live, Stale(s));
    assert (s.live - Stale(s)).Keys == s.live.Keys - Stale(s);
  }

  lemma UncountedGrowth(live: map<string, Tracked>)
    ensures Uncounted(live).Keys == live.Keys && Growth(Uncounted(live), Uncounted(live).Keys) == Growth(live, live.Keys)
  {
    SumSame(live.Keys, TotalOf(Uncounted(live)), TotalOf(live));
    assert Uncounted(live).Keys == live.Keys;
  }

  lemma DrainKeepsInv(s: State)
    requires Inv(s)
    ensures Inv(Drain(s))
  {
    hide Growth;
    if !NothingToReport(s) {
      var d := Drain(s);
      UncountedGrowth(s.live);
      assert d.live == Uncounted(s.live);
      assert Conserved(d);
      assert |d.live| == |s.live| by {
        assert |d.live.Keys| == |s.live.Keys|;
      }
      assert Bounded(d);
      forall id <- d.live
        ensures d.live[id].epoch <= d.epoch
      {
        assert s.live[id].epoch <= s.epoch;
      }
    }
  }

  /** Over every sequence of batches, replays and drains, from any startup mark: no
      byte is lost or counted twice, and every map stays within its bound. */
  lemma {:induction false} BytesAreConserved(startupClose: int, ops: seq<Op>)
    ensures Inv(After(Start(startupClose), ops))
  {
    if ops != [] {
      var init, op := ops[..|ops| - 1], ops[|ops| - 1];
      BytesAreConserved(startupClose, init);
      var s := After(Start(startupClose), init);
      match op {
        case Batch(reset, events, now) =>
          EventsKeepInv(Begin(s, reset), events, now);
          SweepKeepsInv(ApplyEvents(Begin(s, reset), events, now));
        case Report =>
          DrainKeepsInv(s);
      }
    }
  }
}
