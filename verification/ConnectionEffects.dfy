/**
 What one event of the stream does, told from the event alone: the marks of the entry it
 is about, whom the counters count, the snapshot taken, and what a close leaves.
 */
module ConnectionEffects {
  import opened Common
  import opened ClosedIdRing
  import opened ConnectionBucket
  import opened ConnectionCollector

  /** A total raises a mark to its level and never lowers it. */
  function Raised(mark: nat, total: int): nat {
    if total > mark then total else mark
  }

  /** The counters, the bytes and the snapshot of an event about an entry that stands at
      `t` afterwards. `first`: no earlier event of this window counted it. */
  predicate Counts(s: State, r: State, t: Tracked, first: bool, orphan: bool, grown: nat, shot: Option<Measures>) {
    var fits := t.session in s.buckets || |s.buckets| < 2000;
    && CountsOnce(s.coverage, r.coverage, t.attributed, first, orphan, shot.Some? && !fits)
    && CountsBytes(s, r, t.attributed, fits, grown)
    && r.books.taken == s.books.taken + (if shot.Some? then [Shot(t.entry, t.session, shot.value, fits)] else [])
    && Stores(s.buckets, r.buckets, t.session, if fits then shot else None)
  }

  predicate CountsOnce(c: Coverage, d: Coverage, attributed: bool, first: bool, orphan: bool, drop: bool) {
    && d.observed == c.observed + (if first then 1 else 0)
    && d.attributed == c.attributed + (if first && attributed then 1 else 0)
    && d.unattributed == c.unattributed + (if first && !attributed then 1 else 0)
    && d.orphaned == c.orphaned + (if orphan then 1 else 0)
    && d.dropped == c.dropped + (if drop then 1 else 0)
    && d.resets == c.resets
  }

  /** Bytes of a snapshot there is no room for are refused. */
  predicate CountsBytes(s: State, r: State, attributed: bool, fits: bool, grown: nat) {
    && r.coverage.bytesObserved == s.coverage.bytesObserved + (if fits then grown else 0)
    && r.coverage.bytesAttributed == s.coverage.bytesAttributed + (if fits && attributed then grown else 0)
    && r.books.refused == s.books.refused + (if fits then 0 else grown)
    && r.books.drained == s.books.drained && r.books.shipped == s.books.shipped
  }

  /** A stored snapshot covers what was pending for its session, and nothing else changes. */
  predicate Stores(before: map<SessionKey, Measures>, after: map<SessionKey, Measures>, session: SessionKey, shot: Option<Measures>) {
    match shot
    case None => after == before
    case Some(m) =>
      && session in after && after - {session} == before - {session}
      && (session !in before ==> after[session] == m)
      && (session in before ==>
            && after[session].opens == Max(before[session].opens, m.opens)
            && after[session].closes == Max(before[session].closes, m.closes)
            && after[session].uplink == Max(before[session].uplink, m.uplink)
            && after[session].downlink == Max(before[session].downlink, m.downlink)
            && after[session].duration == Max(before[session].duration, m.duration)
            && Spans(before[session], m, after[session]))
  }

  predicate Spans(a: Measures, b: Measures, both: Measures) {
    a.windowStart.At? && a.windowEnd.At? && b.windowStart.At? && b.windowEnd.At? ==>
      && both.windowStart == At(if b.windowStart.ms < a.windowStart.ms then b.windowStart.ms else a.windowStart.ms)
      && both.windowEnd == At(if b.windowEnd.ms > a.windowEnd.ms then b.windowEnd.ms else a.windowEnd.ms)
  }

  /** What stays while no connection is closed. */
  predicate NoneClosed(s: State, r: State) {
    r.accounted == s.accounted && r.closeHighWater == s.closeHighWater && r.books.retired == s.books.retired
  }

  predicate SameFrame(s: State, r: State) {
    r.epoch == s.epoch && r.subscribed == s.subscribed && r.startupClose == s.startupClose
  }

  /** The connection is counted, nothing is recorded yet. */
  predicate Counted(s: State, w: State, t: Tracked, first: bool, orphan: bool) {
    && w.buckets == s.buckets && w.books == s.books && w.accounted == s.accounted && w.closeHighWater == s.closeHighWater
    && SameFrame(s, w)
    && w.coverage == s.coverage.(
         observed := s.coverage.observed + (if first then 1 else 0),
         attributed := s.coverage.attributed + (if first && t.attributed then 1 else 0),
         unattributed := s.coverage.unattributed + (if first && !t.attributed then 1 else 0),
         orphaned := s.coverage.orphaned + (if orphan then 1 else 0))
  }

  lemma RecordCounts(s: State, w: State, t: Tracked, first: bool, orphan: bool, at: int, grown: nat, opens: nat, closes: nat,
                     duration: nat)
    requires Counted(s, w, t, first, orphan)
    ensures var r := Record(w, t, at, grown, opens, closes, duration);
      && r == w.(buckets := r.buckets, coverage := r.coverage, books := r.books) && r.books.retired == s.books.retired
      && Counts(s, r, t, first, orphan, grown,
           if grown > 0 || opens > 0 || closes > 0
           then Some(Measures(1, closes, t.uplink, t.downlink, duration, At(at), At(at))) else None)
  {
    if grown > 0 || opens > 0 || closes > 0 {
      var m := Measures(1, closes, t.uplink, t.downlink, duration, At(at), At(at));
      MergeStores(w.buckets, t.session, m);
      hide Merged, Stores;
    }
  }

  lemma MergeStores(before: map<SessionKey, Measures>, session: SessionKey, m: Measures)
    ensures Stores(before, before[session := if session in before then Merged(before[session], m, true) else m], session, Some(m))
  {
  }

  lemma SeenCounts(s: State, id: string, t: Tracked, at: int)
    requires id in s.live && t.Total() >= s.live[id].Total() && t.attributed == s.live[id].attributed
    ensures var r, u, grown := Seen(s, id, t, at, 0), t.(epoch := s.epoch, counted := true), t.Total() - s.live[id].Total();
      && r.live == s.live[id := u] && r.entries == s.entries && NoneClosed(s, r) && SameFrame(s, r)
      && Counts(s, r, u, !s.live[id].counted, false, grown,
           if grown > 0 then Some(Measures(1, 0, t.uplink, t.downlink, 0, At(at), At(at))) else None)
  {
    var u := t.(epoch := s.epoch, counted := true);
    var w := Touched(s, s.live[id]).(live := s.live[id := u]);
    assert Counted(s, w, u, !s.live[id].counted, false);
    hide Record, Counts, Counted;
    RecordCounts(s, w, u, !s.live[id].counted, false, at, t.Total() - s.live[id].Total(), 0, 0, 0);
  }

  /** A tick adds its own growth to each mark, in either direction on its own, and counts
      the connection once in the window. */
  lemma TickRaisesMarks(s: State, id: string, up: int, down: int, now: int)
    requires id in s.live
    ensures var r, t := ApplyEvent(s, Update(id, up, down), now), s.live[id];
      var x: nat, y: nat := if up > 0 then up else 0, if down > 0 then down else 0;
      var u := t.(uplink := t.uplink + x, downlink := t.downlink + y, epoch := s.epoch, counted := true);
      && r.live == s.live[id := u] && r.entries == s.entries && NoneClosed(s, r) && SameFrame(s, r)
      && Counts(s, r, u, !t.counted, false, x + y,
           if x + y > 0 then Some(Measures(1, 0, t.uplink + x, t.downlink + y, 0, At(now), At(now))) else None)
  {
    hide Seen, Counts;
    SeenCounts(s, id, Ticked(s.live[id], Update(id, up, down)), now);
  }

  /** A replayed connection raises each mark to its total. */
  lemma TotalsRaiseMarks(s: State, e: Event, now: int)
    requires e.New? && e.connection.Some? && EventId(e) in s.live && EventId(e) != "" && e.connection.value.closedAt == 0
    ensures var r, t, c := ApplyEvent(s, e, now), s.live[EventId(e)], e.connection.value;
      var x, y := Raised(t.uplink, c.uplinkTotal), Raised(t.downlink, c.downlinkTotal);
      var u := t.(uplink := x, downlink := y, epoch := s.epoch, counted := true);
      var grown := x - t.uplink + y - t.downlink;
      && r.live == s.live[EventId(e) := u] && r.entries == s.entries && NoneClosed(s, r) && SameFrame(s, r)
      && Counts(s, r, u, !t.counted, false, grown,
           if grown > 0 then Some(Measures(1, 0, x, y, 0, At(now), At(now))) else None)
  {
    hide Seen, Counts;
    SeenCounts(s, EventId(e), Advanced(s.live[EventId(e)], e.connection.value.uplinkTotal, e.connection.value.downlinkTotal), now);
  }

  /** A connection not known yet is tracked from its totals on, while there is room. */
  lemma NewConnectionIsTracked(s: State, e: Event, now: int)
    requires e.New? && e.connection.Some? && EventId(e) !in s.live && EventId(e) != ""
    requires e.connection.value.closedAt == 0 && e.connection.value.session.Some? && |s.live| < 4096
    ensures var r, c := ApplyEvent(s, e, now), e.connection.value;
      var x, y := Raised(0, c.uplinkTotal), Raised(0, c.downlinkTotal);
      var u := Tracked(s.entries, c.session.value, c.attributed, c.createdAt, x, y, s.epoch, true);
      && r.live == s.live[EventId(e) := u] && r.entries == s.entries + 1 && NoneClosed(s, r) && SameFrame(s, r)
      && Counts(s, r, u, true, false, x + y, Some(Measures(1, 0, x, y, 0, At(now), At(now))))
  {
    var c := e.connection.value;
    var t := Advanced(Fresh(s, c), c.uplinkTotal, c.downlinkTotal);
    var u := t.(counted := true);
    var w := Entered(s, t).(live := s.live[EventId(e) := u]);
    assert Counted(s, w, u, true, false);
    hide Record, Counts, Counted;
    RecordCounts(s, w, u, true, false, now, t.Total(), 1, 0, 0);
  }

  /** The instant of a close: the event's own, else the connection's, else the present. */
  function ClosingInstant(e: Event, now: int): int {
    match e
    case Closed(_, _, at) =>
      if at != 0 then at
      else if e.connection.Some? && e.connection.value.closedAt != 0 then e.connection.value.closedAt
      else now
    case New(_, c) => if c.Some? then c.value.closedAt else 0
    case _ => 0
  }

  /** The connection is gone, its id is remembered, and its last snapshot, which closes
      it, lasts from its creation to its close. */
  predicate Leaves(s: State, r: State, id: string, t: Tracked, at: int, first: bool, orphan: bool, grown: nat) {
    && r.live == s.live - {id} && SameFrame(s, r)
    && r.books.retired == s.books.retired + t.uplink + t.downlink
    && id in r.accounted && r.closeHighWater == (if at > s.closeHighWater then at else s.closeHighWater)
    && Counts(s, r, t, first, orphan, grown,
         Some(Measures(1, 1, t.uplink, t.downlink,
           if t.createdAt > 0 && at > t.createdAt then at - t.createdAt else 0, At(at), At(at))))
  }

  lemma SeenLeaves(s: State, id: string, t: Tracked, at: int)
    requires id in s.live && t.Total() >= s.live[id].Total() && t.attributed == s.live[id].attributed
    ensures var r := SeenClosed(s, id, t, at);
      && r.entries == s.entries
      && Leaves(s, r, id, t.(epoch := s.epoch, counted := true), at, !s.live[id].counted, false, t.Total() - s.live[id].Total())
  {
    hide Close, Leaves;
    var u, w := Marked(s, t), Touched(s, s.live[id]);
    assert Counted(s, w, u, !s.live[id].counted, false);
    hide Counted;
    CloseLeaves(s, w, id, u, at, !s.live[id].counted, false, t.Total() - s.live[id].Total(), 0);
  }

  lemma RecoverLeaves(s: State, id: string, c: Connection, at: int)
    requires c.session.Some?
    ensures var r, t := Recover(Orphaned(s), id, c, at), Advanced(Fresh(s, c), c.uplinkTotal, c.downlinkTotal);
      && r.entries == s.entries + 1
      && Leaves(s, r, id, t.(counted := true), at, true, true, t.Total())
  {
    var t := Advanced(Fresh(s, c), c.uplinkTotal, c.downlinkTotal);
    var w := Entered(Orphaned(s), t);
    assert Counted(s, w, t.(counted := true), true, true);
    hide Close, Leaves, Counted;
    CloseLeaves(s, w, id, t.(counted := true), at, true, true, t.Total(), 1);
  }

  lemma RememberKnows(q: seq<string>, id: string, limit: nat)
    requires limit > 0
    ensures id in Remember(q, id, limit)
  {
  }

  lemma RetireCounts(s: State, w: State, id: string, t: Tracked, at: int, first: bool, orphan: bool, grown: nat, shot: Measures)
    requires Counts(s, w, t, first, orphan, grown, Some(shot))
    ensures Counts(s, Retire(w, id, t, at), t, first, orphan, grown, Some(shot))
  {
    hide Stores, Remember;
  }

  lemma RetireLeaves(w: State, id: string, t: Tracked, at: int)
    ensures var r := Retire(w, id, t, at);
      && r.live == w.live - {id} && SameFrame(w, r) && r.entries == w.entries
      && r.books.retired == w.books.retired + t.uplink + t.downlink
      && id in r.accounted && r.closeHighWater == if at > w.closeHighWater then at else w.closeHighWater
  {
    RememberKnows(w.accounted, id, MAX_CLOSED_IDS);
    hide Remember;
  }

  lemma CloseLeaves(s: State, w: State, id: string, t: Tracked, at: int, first: bool, orphan: bool, grown: nat, opens: nat)
    requires Counted(s, w, t, first, orphan) && w.live == s.live
    ensures var r := Close(w, id, t, at, grown, opens);
      r.entries == w.entries && Leaves(s, r, id, t, at, first, orphan, grown)
  {
    var duration := if t.createdAt > 0 && at > t.createdAt then at - t.createdAt else 0;
    hide Record, Retire, Counts;
    RecordCounts(s, w, t, first, orphan, at, grown, opens, 1, duration);
    var x := Record(w, t, at, grown, opens, 1, duration);
    RetireCounts(s, x, id, t, at, first, orphan, grown, Measures(1, 1, t.uplink, t.downlink, duration, At(at), At(at)));
    RetireLeaves(x, id, t, at);
  }

  /** A close of a tracked connection books what its final totals add to the marks; one
      without totals books nothing more. */
  lemma CloseBooksTheRest(s: State, e: Event, now: int)
    requires e.Closed? && e.id in s.live && e.id != ""
    ensures var r, t, c := ApplyEvent(s, e, now), s.live[e.id], e.connection;
      var x := if c.None? then t.uplink else Raised(t.uplink, c.value.uplinkTotal);
      var y := if c.None? then t.downlink else Raised(t.downlink, c.value.downlinkTotal);
      var u := t.(uplink := x, downlink := y, epoch := s.epoch, counted := true);
      r.entries == s.entries && Leaves(s, r, e.id, u, ClosingInstant(e, now), !t.counted, false, x + y - t.uplink - t.downlink)
  {
    hide SeenClosed, Leaves, Recover, Open, Record, Touched, Marked;
    SeenLeaves(s, e.id, LastSeen(s, e), ClosingInstant(e, now));
  }

  /** So does a replay that finds a tracked connection closed. */
  lemma ReplayedCloseBooksTheRest(s: State, e: Event, now: int)
    requires e.New? && e.connection.Some? && EventId(e) in s.live && EventId(e) != "" && e.connection.value.closedAt != 0
    ensures var r, t, c := ApplyEvent(s, e, now), s.live[EventId(e)], e.connection.value;
      var x, y := Raised(t.uplink, c.uplinkTotal), Raised(t.downlink, c.downlinkTotal);
      var u := t.(uplink := x, downlink := y, epoch := s.epoch, counted := true);
      r.entries == s.entries && Leaves(s, r, EventId(e), u, c.closedAt, !t.counted, false, x + y - t.uplink - t.downlink)
  {
    hide SeenClosed, Leaves, Recover, Open, Record, Touched, Marked;
    var c := e.connection.value;
    SeenLeaves(s, EventId(e), Advanced(s.live[EventId(e)], c.uplinkTotal, c.downlinkTotal), c.closedAt);
  }

  /** A close of a connection that was never tracked, told by its own event or by a replay
      and not accounted for yet, books all of it at once. */
  lemma UntrackedCloseIsRecovered(s: State, e: Event, now: int)
    requires (e.Closed? && e.id !in s.live && e.id != "" && e.id !in s.accounted && e.connection.Some?)
      || (e.New? && e.connection.Some? && EventId(e) !in s.live && EventId(e) != "" && EventId(e) !in s.accounted
          && e.connection.value.closedAt != 0 && e.connection.value.closedAt > s.startupClose)
    requires e.connection.value.session.Some?
    ensures var id := if e.Closed? then e.id else EventId(e);
      var r, c := ApplyEvent(s, e, now), e.connection.value;
      var x, y := Raised(0, c.uplinkTotal), Raised(0, c.downlinkTotal);
      && r.entries == s.entries + 1
      && Leaves(s, r, id, Tracked(s.entries, c.session.value, c.attributed, c.createdAt, x, y, s.epoch, true),
           ClosingInstant(e, now), true, true, x + y)
  {
    hide SeenClosed, Leaves, Recover, Open, Record, Touched, Marked, Orphaned;
    RecoverLeaves(s, if e.Closed? then e.id else EventId(e), e.connection.value, ClosingInstant(e, now));
  }

  /** All other events move nothing but a counter: the gap a close of an unknown connection
      proves, and the entry that could not be made. */
  lemma OtherEventsOnlyCount(s: State, e: Event, now: int)
    ensures var r := ApplyEvent(s, e, now);
      var c := s.coverage;
      match e
      case Unknown => r == s
      case Update(id, _, _) => id !in s.live ==> r == s
      case New(_, connection) =>
        if connection.None? || EventId(e) == "" then r == s
        else if EventId(e) in s.live then true
        else if connection.value.closedAt != 0 then
          if EventId(e) in s.accounted || connection.value.closedAt <= s.startupClose then r == s
          else connection.value.session.None? ==> r == s.(coverage := c.(dropped := c.dropped + 1))
        else |s.live| >= 4096 || connection.value.session.None? ==> r == s.(coverage := c.(dropped := c.dropped + 1))
      case Closed(id, connection, _) =>
        if id == "" then r == s
        else if id in s.live then true
        else if id in s.accounted then r == s
        else if connection.None? then r == s.(coverage := c.(orphaned := c.orphaned + 1))
        else connection.value.session.None? ==>
          r == s.(coverage := c.(orphaned := c.orphaned + 1, dropped := c.dropped + 1))
  {
  }

  /** A replay counts as a gap unless it is the first one, and begins a new epoch; what it
      does not mention is gone without a close. */
  lemma ReplayBegins(s: State, events: seq<Event>, now: int)
    ensures var b := Begin(s, true);
      && b == s.(epoch := s.epoch + 1, subscribed := true, coverage := b.coverage)
      && b.coverage == s.coverage.(resets := s.coverage.resets + (if s.subscribed then 1 else 0))
    ensures var told, r := ApplyEvents(Begin(s, true), events, now), Apply(s, true, events, now);
      && r == told.(live := r.live, books := told.books.(retired := r.books.retired))
      && (forall id :: id in r.live <==> id in told.live && told.live[id].epoch == told.epoch)
      && (forall id <- r.live :: r.live[id] == told.live[id])
    ensures Apply(s, false, events, now) == ApplyEvents(s, events, now)
  {
    hide Growth;
  }

  /** A drain with anything to report hands out all of it and counts every connection
      afresh; the marks stay. */
  lemma DrainHandsOut(s: State)
    ensures var r := Drain(s);
      if s.buckets == map[] && s.coverage == Coverage(0, 0, 0, 0, 0, 0, 0, 0) then r == s
      else
        && r.buckets == map[] && r.coverage == Coverage(0, 0, 0, 0, 0, 0, 0, 0)
        && r.books.shipped == s.books.shipped + [s.buckets] && r.books.drained == s.books.drained + s.coverage.bytesObserved
        && r.live.Keys == s.live.Keys && (forall id <- r.live :: r.live[id] == s.live[id].(counted := false))
        && r == s.(buckets := r.buckets, coverage := r.coverage, live := r.live,
             books := s.books.(drained := r.books.drained, shipped := r.books.shipped))
  {
  }
}
