/** The collector itself: maps, counters and the ring of closed ids, updated in place. */
module ConnectionStream {
  import opened Common
  import opened Sums
  import opened ClosedIdRing
  import opened ConnectionBucket
  import opened ConnectionCollector
  import opened ConnectionEffects

  class Collector {
    var live: map<string, Tracked>
    var entries: nat
    var buckets: map<SessionKey, Measures>
    const accounted: Ring
    var coverage: Coverage
    var epoch: nat
    var subscribed: bool
    const startupClose: int
    var closeHighWater: int
    var windowStart: int
    ghost var books: Books

    ghost predicate Valid()
      reads this, accounted, accounted.order
    {
      accounted.Valid() && accounted.order.Length == MAX_CLOSED_IDS && "" !in live
    }

    ghost function Now(): State
      reads this, accounted, accounted.order
      requires Valid()
    {
      State(live, entries, buckets, accounted.Queue(), coverage, epoch, subscribed, startupClose, closeHighWater, books)
    }

    constructor (startupClose: int, now: int)
      ensures Valid() && fresh(accounted) && fresh(accounted.order) && Now() == Start(startupClose) && windowStart == now
    {
      windowStart := now;
      live, entries, buckets, coverage, books := map[], 0, map[], NOTHING, Books(0, 0, 0, [], []);
      epoch, subscribed := 0, false;
      closeHighWater := if startupClose > 0 then startupClose else 0;
      this.startupClose := startupClose;
      accounted := new Ring(MAX_CLOSED_IDS);
    }

    /** Raises the high-water marks; what they rose by is new. */
    static method Advance(t: Tracked, uplinkTotal: int, downlinkTotal: int)
      returns (u: Tracked, uplink: nat, downlink: nat)
      ensures u == Advanced(t, uplinkTotal, downlinkTotal)
      ensures uplink == u.uplink - t.uplink && downlink == u.downlink - t.downlink
    {
      u, uplink, downlink := t, 0, 0;
      if uplinkTotal > u.uplink {
        uplink := uplinkTotal - u.uplink;
        u := u.(uplink := uplinkTotal);
      }
      if downlinkTotal > u.downlink {
        downlink := downlinkTotal - u.downlink;
        u := u.(downlink := downlinkTotal);
      }
    }

    method CountOnce(t: Tracked) returns (u: Tracked)
      requires Valid()
      modifies this`coverage
      ensures Valid() && Now() == Touched(old(Now()), t) && u == t.(counted := true)
    {
      u := t.(counted := true);
      if t.counted {
        return;
      }
      coverage := coverage.(observed := coverage.observed + 1);
      if t.attributed {
        coverage := coverage.(attributed := coverage.attributed + 1);
      } else {
        coverage := coverage.(unattributed := coverage.unattributed + 1);
      }
    }

    method Drop()
      requires Valid()
      modifies this`coverage
      ensures Valid() && Now() == Dropped(old(Now()))
    {
      coverage := coverage.(dropped := coverage.dropped + 1);
    }

    method StoreSnapshot(t: Tracked, at: int, uplink: nat, downlink: nat, opens: nat, closes: nat, duration: nat)
      requires Valid()
      modifies this`buckets, this`coverage, this`books
      ensures Valid() && Now() == Record(old(Now()), t, at, uplink + downlink, opens, closes, duration)
    {
      if uplink == 0 && downlink == 0 && opens == 0 && closes == 0 {
        return;
      }
      var snapshot := Snapshot(t, at, closes, duration);
      var total := uplink + downlink;
      if t.session !in buckets {
        if |buckets| >= MAX_BUCKETS {
          Drop();
          books := books.(
            refused := books.refused + total, taken := books.taken + [Shot(t.entry, t.session, snapshot, false)]);
          return;
        }
        buckets := buckets[t.session := snapshot];
      } else {
        buckets := buckets[t.session := Merged(buckets[t.session], snapshot, true)];
      }
      books := books.(taken := books.taken + [Shot(t.entry, t.session, snapshot, true)]);
      coverage := coverage.(bytesObserved := coverage.bytesObserved + total);
      if t.attributed {
        coverage := coverage.(bytesAttributed := coverage.bytesAttributed + total);
      }
    }

    method CloseTracked(id: string, t: Tracked, closedAt: int, uplink: nat, downlink: nat, opens: nat)
      requires Valid() && id != ""
      modifies this`live, this`buckets, this`coverage, this`closeHighWater, this`books, accounted, accounted.order
      ensures Valid() && Now() == Close(old(Now()), id, t, closedAt, uplink + downlink, opens)
    {
      hide Record, Retire;
      var duration := 0;
      if t.createdAt > 0 && closedAt > t.createdAt {
        duration := closedAt - t.createdAt;
      }
      StoreSnapshot(t, closedAt, uplink, downlink, opens, 1, duration);
      Forget(id, t, closedAt);
    }

    /** Out of the live map, into the ring. */
    method Forget(id: string, t: Tracked, closedAt: int)
      requires Valid() && id != ""
      modifies this`live, this`closeHighWater, this`books, accounted, accounted.order
      ensures Valid() && Now() == Retire(old(Now()), id, t, closedAt)
    {
      hide Record, Close;
      live := live - {id};
      accounted.Add(id);
      if closedAt > closeHighWater {
        closeHighWater := closedAt;
      }
      books := books.(retired := books.retired + t.Total());
    }

    /** No entry for a connection whose dimensions cannot be normalised. */
    method NewTracked(c: Connection) returns (t: Option<Tracked>)
      requires Valid()
      modifies this`coverage, this`entries
      ensures Valid() && t == if c.session.Some? then Some(Fresh(old(Now()), c)) else None
      ensures Now() == if c.session.Some? then old(Now()).(entries := old(entries) + 1) else Dropped(old(Now()))
    {
      if c.session.None? {
        Drop();
        return None;
      }
      entries := entries + 1;
      return Some(Tracked(entries - 1, c.session.value, c.attributed, c.createdAt, 0, 0, epoch, false));
    }

    method HandleSeen(id: string, t: Tracked, uplink: nat, downlink: nat, at: int, closedAt: int)
      requires Valid() && id != "" && id in live
      requires t.uplink == live[id].uplink + uplink && t.downlink == live[id].downlink + downlink
      requires t.counted == live[id].counted && t.attributed == live[id].attributed
      modifies this`live, this`entries, this`buckets, this`coverage, this`closeHighWater, this`books, accounted, accounted.order
      ensures Valid() && Now() == Seen(old(Now()), id, t, at, closedAt)
    {
      hide Record, Close;
      var marked := CountOnce(t.(epoch := epoch));
      if closedAt != 0 {
        CloseTracked(id, marked, closedAt, uplink, downlink, 0);
      } else {
        live := live[id := marked];
        StoreSnapshot(marked, at, uplink, downlink, 0, 0, 0);
      }
    }

    method HandleNew(e: Event, now: int)
      requires Valid() && e.New?
      modifies this`live, this`entries, this`buckets, this`coverage, this`closeHighWater, this`books, accounted, accounted.order
      ensures Valid() && Now() == ApplyNew(old(Now()), e, now)
    {
      hide Record, Close, Seen, Open, Recover;
      if e.connection.None? {
        return;
      }
      var c := e.connection.value;
      var id := if e.id != "" then e.id else c.id;
      if id == "" {
        return;
      }
      if id in live {
        var t, uplink, downlink := Advance(live[id], c.uplinkTotal, c.downlinkTotal);
        HandleSeen(id, t, uplink, downlink, now, c.closedAt);
        return;
      }
      if c.closedAt != 0 {
        var known := accounted.Contains(id);
        if known || c.closedAt <= startupClose {
          return;
        }
        var t := NewTracked(c);
        if t.Some? {
          coverage := coverage.(orphaned := coverage.orphaned + 1);
          HandleRecovered(id, c, t.value, c.closedAt);
        }
        return;
      }
      HandleOpen(id, c, now);
    }

    method HandleOpen(id: string, c: Connection, now: int)
      requires Valid() && id != "" && id !in live
      modifies this`live, this`entries, this`buckets, this`coverage, this`books
      ensures Valid() && Now() == Open(old(Now()), id, c, now)
    {
      hide Record;
      if |live| >= MAX_TRACKED {
        Drop();
        return;
      }
      var entry := NewTracked(c);
      if entry.Some? {
        var t, uplink, downlink := Advance(entry.value, c.uplinkTotal, c.downlinkTotal);
        t := CountOnce(t);
        live := live[id := t];
        StoreSnapshot(t, now, uplink, downlink, 1, 0, 0);
      }
    }

    method HandleRecovered(id: string, c: Connection, entry: Tracked, closedAt: int)
      requires Valid() && id != "" && c.session.Some? && entries > 0
      requires entry == Fresh(Now().(entries := entries - 1), c)
      modifies this`live, this`entries, this`buckets, this`coverage, this`closeHighWater, this`books, accounted, accounted.order
      ensures Valid() && Now() == Recover(old(Now()).(entries := old(entries) - 1), id, c, closedAt)
    {
      hide Record, Close;
      var t, uplink, downlink := Advance(entry, c.uplinkTotal, c.downlinkTotal);
      t := CountOnce(t);
      CloseTracked(id, t, closedAt, uplink, downlink, 1);
    }

    method HandleUpdate(e: Event, now: int)
      requires Valid() && e.Update?
      modifies this`live, this`entries, this`buckets, this`coverage, this`closeHighWater, this`books, accounted, accounted.order
      ensures Valid() && Now() == ApplyUpdate(old(Now()), e, now)
      ensures e.id in old(live) ==>
        && live.Keys == old(live).Keys
        && live[e.id].uplink == old(live)[e.id].uplink + (if e.uplinkDelta > 0 then e.uplinkDelta else 0)
        && live[e.id].downlink == old(live)[e.id].downlink + (if e.downlinkDelta > 0 then e.downlinkDelta else 0)
    {
      hide Seen, Counts;
      if e.id !in live {
        return;
      }
      TickRaisesMarks(Now(), e.id, e.uplinkDelta, e.downlinkDelta, now);
      var t := live[e.id];
      var uplink, downlink := Positive(e.uplinkDelta), Positive(e.downlinkDelta);
      t := t.(uplink := t.uplink + uplink, downlink := t.downlink + downlink);
      HandleSeen(e.id, t, uplink, downlink, now, 0);
    }

    method HandleClosed(e: Event, now: int)
      requires Valid() && e.Closed?
      modifies this`live, this`entries, this`buckets, this`coverage, this`closeHighWater, this`books, accounted, accounted.order
      ensures Valid() && Now() == ApplyClosed(old(Now()), e, now)
    {
      hide Record, Close;
      if e.id == "" {
        return;
      }
      var closedAt := e.closedAt;
      if closedAt == 0 && e.connection.Some? {
        closedAt := e.connection.value.closedAt;
      }
      if closedAt == 0 {
        closedAt := now;
      }
      if e.id in live {
        var t, uplink, downlink := live[e.id], 0, 0;
        if e.connection.Some? {
          t, uplink, downlink := Advance(t, e.connection.value.uplinkTotal, e.connection.value.downlinkTotal);
        }
        t := CountOnce(t.(epoch := epoch));
        CloseTracked(e.id, t, closedAt, uplink, downlink, 0);
        return;
      }
      var known := accounted.Contains(e.id);
      if known {
        return;
      }
      coverage := coverage.(orphaned := coverage.orphaned + 1);
      if e.connection.None? {
        return;
      }
      var t := NewTracked(e.connection.value);
      if t.Some? {
        HandleRecovered(e.id, e.connection.value, t.value, closedAt);
      }
    }

    method HandleEvent(e: Event, now: int)
      requires Valid()
      modifies this`live, this`entries, this`buckets, this`coverage, this`closeHighWater, this`books, accounted, accounted.order
      ensures Valid() && Now() == ApplyEvent(old(Now()), e, now)
    {
      hide ApplyNew, ApplyUpdate, ApplyClosed;
      match e {
        case New(_, _) => HandleNew(e, now);
        case Update(_, _, _) => HandleUpdate(e, now);
        case Closed(_, _, _) => HandleClosed(e, now);
        case Unknown =>
      }
    }

    method SweepStale()
      requires Valid()
      modifies this`live, this`books
      ensures Valid() && Now() == Sweep(old(Now()))
    {
      hide Growth;
      ghost var before, keys, swept := live, live.Keys, {};
      var left := live.Keys;
      GrowthOfNone(before);
      while left != {}
        invariant left <= live.Keys && "" !in live
        invariant live == before - swept && swept <= before.Keys
        invariant swept == set id | id in before && id !in left && before[id].epoch != epoch
        invariant books == old(books).(retired := old(books).retired + Growth(before, swept))
      {
        var id :| id in left;
        left := left - {id};
        if live[id].epoch != epoch {
          books := books.(retired := books.retired + live[id].Total());
          GrowthOfOneMore(before, swept, id);
          live := live - {id};
          swept := swept + {id};
        }
      }
      assert swept == Stale(old(Now()));
    }

    method Receive(reset: bool, events: seq<Event>, now: int)
      requires Valid()
      modifies this, accounted, accounted.order
      ensures Valid() && Now() == Apply(old(Now()), reset, events, now) && windowStart == old(windowStart)
    {
      hide ApplyEvent, Sweep, Growth;
      if reset {
        epoch := epoch + 1;
        if subscribed {
          coverage := coverage.(resets := coverage.resets + 1);
        }
        subscribed := true;
      }
      ghost var begun := Now();
      var i := 0;
      while i < |events|
        invariant 0 <= i <= |events|
        invariant Valid() && Now() == ApplyEvents(begun, events[..i], now) && windowStart == old(windowStart)
      {
        HandleEvent(events[i], now);
        assert events[..i + 1][..i] == events[..i];
        i := i + 1;
      }
      assert events[..|events|] == events;
      if reset {
        SweepStale();
      }
    }

    /** Every live connection is counted afresh in the next window. */
    method Uncount()
      modifies this`live
      ensures live == Uncounted(old(live))
    {
      var left := live.Keys;
      while left != {}
        invariant left <= live.Keys == old(live).Keys
        invariant forall id <- live :: live[id] == if id in left then old(live)[id] else old(live)[id].(counted := false)
      {
        var id :| id in left;
        live := live[id := live[id].(counted := false)];
        left := left - {id};
      }
    }

    /** Everything since the last report, if there is anything; the windows of successive
        drains meet, those with nothing to report included. */
    method Drain(now: int) returns (start: int, report: Option<(map<SessionKey, Measures>, Coverage)>)
      requires Valid()
      modifies this
      ensures Valid() && Now() == ConnectionCollector.Drain(old(Now()))
      ensures start == old(windowStart) && windowStart == now
      ensures report == if NothingToReport(old(Now())) then None else Some((old(buckets), old(coverage)))
    {
      start, windowStart := windowStart, now;
      if buckets == map[] && coverage == NOTHING {
        return start, None;
      }
      report := Some((buckets, coverage));
      books := books.(drained := books.drained + coverage.bytesObserved, shipped := books.shipped + [buckets]);
      coverage, buckets := NOTHING, map[];
      Uncount();
    }
  }

  lemma GrowthOfNone(live: map<string, Tracked>)
    ensures Growth(live, {}) == 0
  {
  }

  lemma GrowthOfOneMore(live: map<string, Tracked>, ids: set<string>, id: string)
    requires id in live && id !in ids
    ensures Growth(live, ids + {id}) == Growth(live, ids) + live[id].Total()
  {
    SumRemove(ids + {id}, TotalOf(live), id);
    assert ids + {id} - {id} == ids;
  }
}
