/**
 What a full-state replay does to the collector: nothing survives that the replay
 did not mention, and replaying the same state twice counts nothing twice.
 */
module ConnectionReplay {
  import opened Common
  import opened ConnectionBucket
  import opened ConnectionCollector

  /** The connection an event is about. */
  function Subject(e: Event): Option<string> {
    match e
    case New(_, connection) => if connection.Some? then Some(EventId(e)) else None
    case Update(id, _, _) => Some(id)
    case Closed(id, _, _) => Some(id)
    case Unknown => None
  }

  predicate Mentions(e: Event, id: string) {
    Subject(e) == Some(id)
  }

  // ----- Frames -----

  lemma RecordFrame(s: State, t: Tracked, at: int, grown: nat, opens: nat, closes: nat, duration: nat)
    ensures var r := Record(s, t, at, grown, opens, closes, duration);
      r.live == s.live && r.epoch == s.epoch && r.startupClose == s.startupClose && r.subscribed == s.subscribed
  {
  }

  lemma CloseFrame(s: State, id: string, t: Tracked, closedAt: int, grown: nat, opens: nat)
    ensures var r := Close(s, id, t, closedAt, grown, opens);
      r.live == s.live - {id} && r.epoch == s.epoch && r.startupClose == s.startupClose && r.subscribed == s.subscribed
  {
    hide Record;
    var duration := if t.createdAt > 0 && closedAt > t.createdAt then closedAt - t.createdAt else 0;
    RecordFrame(s, t, closedAt, grown, opens, 1, duration);
  }

  /** The live map after one event about `id`, and everything an event leaves alone. */
  ghost predicate OnlyAbout(s: State, r: State, id: string) {
    && r.epoch == s.epoch && r.startupClose == s.startupClose && r.subscribed == s.subscribed
    && r.live - {id} == s.live - {id}
  }

  lemma SeenFrame(s: State, id: string, t: Tracked, at: int, closedAt: int)
    requires id in s.live && t.Total() >= s.live[id].Total()
    ensures OnlyAbout(s, Seen(s, id, t, at, closedAt), id) && OnlyAbout(s, SeenClosed(s, id, t, closedAt), id)
    ensures id !in SeenClosed(s, id, t, closedAt).live
    ensures closedAt == 0 ==> Seen(s, id, t, at, closedAt).live == s.live[id := Marked(s, t)]
    ensures closedAt != 0 ==> id !in Seen(s, id, t, at, closedAt).live
  {
    hide Record, Close;
    var grown := t.Total() - s.live[id].Total();
    CloseFrame(Touched(s, s.live[id]), id, Marked(s, t), closedAt, grown, 0);
    RecordFrame(Touched(s, s.live[id]).(live := s.live[id := Marked(s, t)]), Marked(s, t), at, grown, 0, 0, 0);
  }

  lemma RecoverFrame(s: State, id: string, c: Connection, closedAt: int)
    requires id !in s.live
    ensures OnlyAbout(s, Recover(s, id, c, closedAt), id) && id !in Recover(s, id, c, closedAt).live
  {
    hide Close;
    if c.session.Some? {
      var t := Advanced(Fresh(s, c), c.uplinkTotal, c.downlinkTotal);
      CloseFrame(Entered(s, t), id, t.(counted := true), closedAt, t.Total(), 1);
    }
  }

  lemma OpenFrame(s: State, id: string, c: Connection, now: int)
    requires id !in s.live
    ensures OnlyAbout(s, Open(s, id, c, now), id)
    ensures var r := Open(s, id, c, now);
      if |s.live| >= MAX_TRACKED || c.session.None? then r.live == s.live
      else r.live == s.live[id := Advanced(Fresh(s, c), c.uplinkTotal, c.downlinkTotal).(counted := true)]
  {
    hide Record;
    if |s.live| < MAX_TRACKED && c.session.Some? {
      var t := Advanced(Fresh(s, c), c.uplinkTotal, c.downlinkTotal);
      var marked := t.(counted := true);
      RecordFrame(Entered(s, t).(live := s.live[id := marked]), marked, now, t.Total(), 1, 0, 0);
    }
  }

  /** The collector already knows what a replayed NEW event says: an open connection is
      tracked with at least its totals and counted in this window, a closed one is not
      tracked. */
  predicate Carries(s: State, e: Event)
    requires e.New? && e.connection.Some?
  {
    var id, c := EventId(e), e.connection.value;
    if id in s.live then
      var t := s.live[id];
      c.closedAt == 0 && t.counted && c.uplinkTotal <= t.uplink && c.downlinkTotal <= t.downlink
    else c.closedAt == 0 ==> c.session.None?
  }

  predicate Landed(s: State, e: Event)
    requires e.New? && e.connection.Some?
  {
    Carries(s, e) && (EventId(e) in s.live ==> s.live[EventId(e)].epoch == s.epoch)
  }

  predicate RefusesToTrack(s: State, e: Event)
    requires e.New? && e.connection.Some?
  {
    EventId(e) !in s.live && e.connection.value.closedAt == 0 && |s.live| >= MAX_TRACKED
  }

  lemma NewFrame(s: State, e: Event, now: int)
    requires e.New? && e.connection.Some? && EventId(e) != ""
    ensures OnlyAbout(s, ApplyNew(s, e, now), EventId(e))
    ensures !RefusesToTrack(s, e) ==> Landed(ApplyNew(s, e, now), e)
  {
    hide Seen, Open, Recover;
    var id, c := EventId(e), e.connection.value;
    if id in s.live {
      SeenFrame(s, id, Advanced(s.live[id], c.uplinkTotal, c.downlinkTotal), now, c.closedAt);
    } else if c.closedAt == 0 {
      OpenFrame(s, id, c, now);
    } else {
      RecoverFrame(Orphaned(s), id, c, c.closedAt);
    }
  }

  lemma EventFrame(s: State, e: Event, now: int, id: string)
    requires !Mentions(e, id)
    ensures var r := ApplyEvent(s, e, now);
      && r.epoch == s.epoch && r.startupClose == s.startupClose && r.subscribed == s.subscribed
      && (id in r.live <==> id in s.live) && (id in s.live ==> r.live[id] == s.live[id])
  {
    hide ApplyNew, Seen, SeenClosed, Recover;
    match e {
      case New(_, connection) =>
        if connection.Some? && EventId(e) != "" {
          NewFrame(s, e, now);
          SameElsewhere(s.live, ApplyNew(s, e, now).live, EventId(e), id);
        } else {
          IgnoredNew(s, e, now);
        }
      case Update(i, _, _) =>
        if i in s.live {
          SeenFrame(s, i, Ticked(s.live[i], e), now, 0);
          SameElsewhere(s.live, ApplyUpdate(s, e, now).live, i, id);
        }
      case Closed(i, connection, _) =>
        if i == "" {
        } else if i in s.live {
          SeenFrame(s, i, LastSeen(s, e), now, CloseInstant(e, now));
          SameElsewhere(s.live, ApplyClosed(s, e, now).live, i, id);
        } else if connection.Some? {
          RecoverFrame(Orphaned(s), i, connection.value, CloseInstant(e, now));
          if i !in s.accounted {
            SameElsewhere(s.live, ApplyClosed(s, e, now).live, i, id);
          }
        }
      case Unknown =>
    }
  }

  lemma IgnoredNew(s: State, e: Event, now: int)
    requires e.New? && (e.connection.None? || EventId(e) == "")
    ensures ApplyNew(s, e, now) == s
  {
  }

  lemma SameElsewhere(a: map<string, Tracked>, b: map<string, Tracked>, i: string, id: string)
    requires b - {i} == a - {i} && i != id
    ensures (id in b <==> id in a) && (id in a ==> b[id] == a[id])
  {
    assert id in b <==> id in b - {i};
    assert id in a <==> id in a - {i};
  }

  // ----- Survivors -----

  lemma {:induction false} EpochMeansMentioned(s: State, events: seq<Event>, now: int, id: string)
    requires id in ApplyEvents(s, events, now).live
    ensures ApplyEvents(s, events, now).epoch == s.epoch
    ensures (exists e <- events :: Mentions(e, id)) || (id in s.live && ApplyEvents(s, events, now).live[id] == s.live[id])
  {
    hide ApplyEvent;
    EpochIsKept(s, events, now);
    if events != [] {
      var init, last := events[..|events| - 1], events[|events| - 1];
      if Mentions(last, id) {
        assert last in events;
      } else {
        EventFrame(ApplyEvents(s, init, now), last, now, id);
        EpochMeansMentioned(s, init, now, id);
        if e :| e in init && Mentions(e, id) {
          assert e in events;
        }
      }
    }
  }

  lemma {:induction false} EpochIsKept(s: State, events: seq<Event>, now: int)
    ensures var r := ApplyEvents(s, events, now);
      r.epoch == s.epoch && r.startupClose == s.startupClose && r.subscribed == s.subscribed
  {
    hide ApplyEvent;
    if events != [] {
      EpochIsKept(s, events[..|events| - 1], now);
      EventKeepsEpoch(ApplyEvents(s, events[..|events| - 1], now), events[|events| - 1], now);
    }
  }

  lemma EventKeepsEpoch(s: State, e: Event, now: int)
    ensures var r := ApplyEvent(s, e, now);
      r.epoch == s.epoch && r.startupClose == s.startupClose && r.subscribed == s.subscribed
  {
    hide ApplyEvent;
    var id := match Subject(e) case None => "" case Some(subject) => subject + "'";
    assert Subject(e).Some? ==> |id| == |Subject(e).value| + 1;
    EventFrame(s, e, now, id);
  }

  /** After a replay, everything still tracked was mentioned in it. */
  lemma SurvivorsWereMentioned(s: State, events: seq<Event>, now: int, id: string)
    requires Inv(s) && id in Apply(s, true, events, now).live
    ensures exists e <- events :: Mentions(e, id)
  {
    hide ApplyEvents, Growth;
    var begun := Begin(s, true);
    EpochMeansMentioned(begun, events, now, id);
  }

  // ----- Replaying twice -----

  /** A full-state replay: NEW events only, one for each connection id. */
  predicate FullState(events: seq<Event>) {
    && (forall e <- events :: e.New? && e.connection.Some? && EventId(e) != "")
    && forall i, j :: 0 <= i < j < |events| ==> EventId(events[i]) != EventId(events[j])
  }

  /** The bound on tracked connections never turned a replayed connection away. */
  predicate NoneRefused(s: State, events: seq<Event>, now: int)
    requires FullState(events)
  {
    forall i :: 0 <= i < |events| ==> !RefusesToTrack(ApplyEvents(s, events[..i], now), events[i])
  }

  /** Replaying this closed connection once more would be recognised. */
  predicate Recognised(s: State, e: Event)
    requires e.New? && e.connection.Some?
  {
    var c := e.connection.value;
    c.closedAt != 0 ==> EventId(e) in s.accounted || c.closedAt <= s.startupClose || c.session.None?
  }

  /** Equal but for the epochs and the counter of drops. */
  predicate SameAccounts(a: State, b: State) {
    && a.live.Keys == b.live.Keys
    && (forall id <- a.live :: a.live[id] == b.live[id].(epoch := a.live[id].epoch))
    && a.buckets == b.buckets && a.accounted == b.accounted && a.books == b.books
    && a.startupClose == b.startupClose && a.closeHighWater == b.closeHighWater
    && a.coverage == b.coverage.(dropped := a.coverage.dropped)
  }

  lemma LandedStays(s: State, last: Event, now: int, e: Event)
    requires e.New? && e.connection.Some? && Landed(s, e) && !Mentions(last, EventId(e))
    ensures Landed(ApplyEvent(s, last, now), e)
  {
    hide ApplyEvent;
    EventFrame(s, last, now, EventId(e));
  }

  lemma EventsOneMore(s: State, events: seq<Event>, now: int, n: nat)
    requires 0 < n <= |events|
    ensures ApplyEvents(s, events[..n], now) == ApplyEvent(ApplyEvents(s, events[..n - 1], now), events[n - 1], now)
  {
    assert events[..n][..n - 1] == events[..n - 1];
  }

  lemma {:induction false} ReplayLands(s: State, events: seq<Event>, now: int, n: nat)
    requires FullState(events) && NoneRefused(s, events, now) && n <= |events|
    ensures forall i :: 0 <= i < n ==> Landed(ApplyEvents(s, events[..n], now), events[i])
  {
    hide ApplyNew, ApplyEvents, Landed;
    if n > 0 {
      ReplayLands(s, events, now, n - 1);
      var before, last := ApplyEvents(s, events[..n - 1], now), events[n - 1];
      EventsOneMore(s, events, now, n);
      NewFrame(before, last, now);
      forall i | 0 <= i < n - 1
        ensures Landed(ApplyEvents(s, events[..n], now), events[i])
      {
        LandedStays(before, last, now, events[i]);
      }
    }
  }

  /** A NEW event the collector already knows refreshes the epoch and nothing else. */
  lemma KnownNewIsRefresh(s: State, e: Event, now: int)
    requires e.New? && e.connection.Some? && EventId(e) != ""
    requires Carries(s, e) && Recognised(s, e)
    ensures SameAccounts(ApplyNew(s, e, now), s)
    ensures EventId(e) in s.live ==> ApplyNew(s, e, now).live[EventId(e)].epoch == s.epoch
  {
    var id, c := EventId(e), e.connection.value;
    if id in s.live {
      var t := s.live[id];
      assert Advanced(t, c.uplinkTotal, c.downlinkTotal) == t;
      assert Touched(s, t) == s;
      assert Seen(s, id, t, now, 0) == s.(live := s.live[id := Marked(s, t)]);
    }
  }

  lemma SameAccountsCarry(a: State, b: State, e: Event)
    requires e.New? && e.connection.Some? && SameAccounts(a, b) && Carries(b, e) && Recognised(b, e)
    ensures Carries(a, e) && Recognised(a, e)
  {
  }

  lemma SameAccountsCompose(a: State, b: State, c: State)
    requires SameAccounts(a, b) && SameAccounts(b, c)
    ensures SameAccounts(a, c)
  {
  }

  lemma {:induction false} KnownReplayRefreshes(s: State, events: seq<Event>, now: int, n: nat)
    requires FullState(events) && n <= |events|
    requires forall e <- events :: Carries(s, e) && Recognised(s, e)
    ensures var r := ApplyEvents(s, events[..n], now);
      && SameAccounts(r, s) && r.epoch == s.epoch
      && forall i :: 0 <= i < n && EventId(events[i]) in r.live ==> r.live[EventId(events[i])].epoch == s.epoch
  {
    hide ApplyNew;
    if n > 0 {
      KnownReplayRefreshes(s, events, now, n - 1);
      var before, last := ApplyEvents(s, events[..n - 1], now), events[n - 1];
      EventsOneMore(s, events, now, n);
      assert last in events;
      SameAccountsCarry(before, s, last);
      KnownNewIsRefresh(before, last, now);
      SameAccountsCompose(ApplyNew(before, last, now), before, s);
      NewFrame(before, last, now);
      forall i | 0 <= i < n - 1
        ensures var r := ApplyEvents(s, events[..n], now);
          EventId(events[i]) in r.live ==> r.live[EventId(events[i])].epoch == s.epoch
      {
        EventFrame(before, last, now, EventId(events[i]));
      }
    }
  }

  lemma SweepOfFresh(s: State)
    requires Stale(s) == {}
    ensures Sweep(s) == s
  {
    assert s.live - {} == s.live;
  }

  /** The same full state delivered twice in a row: totals, buckets, remembered closes,
      byte and connection counters are as after the first delivery. Needed are only that
      no connection was refused at the bound, and that the closes it replays are still
      remembered. */
  lemma ReplayIsIdempotent(s: State, events: seq<Event>, first: int, second: int)
    requires Inv(s) && FullState(events) && NoneRefused(Begin(s, true), events, first)
    requires forall e <- events :: Recognised(Apply(s, true, events, first), e)
    ensures var once := Apply(s, true, events, first);
      var twice := Apply(once, true, events, second);
      && SameAccounts(twice, once.(coverage := twice.coverage))
      && twice.coverage == once.coverage.(resets := once.coverage.resets + 1, dropped := twice.coverage.dropped)
  {
    hide ApplyEvents, ApplyNew, Growth;
    assert events[..|events|] == events;
    var landed := ApplyEvents(Begin(s, true), events, first);
    var once := Apply(s, true, events, first);
    ReplayLands(Begin(s, true), events, first, |events|);
    EpochIsKept(Begin(s, true), events, first);
    var begun := Begin(once, true);
    forall e <- events
      ensures Carries(begun, e) && Recognised(begun, e)
    {
      assert Landed(landed, e);
    }
    KnownReplayRefreshes(begun, events, second, |events|);
    var again := ApplyEvents(begun, events, second);
    assert Stale(again) == {} by {
      forall id <- again.live
        ensures again.live[id].epoch == again.epoch
      {
        SurvivorsWereMentioned(s, events, first, id);
        var e :| e in events && Mentions(e, id);
        var i :| 0 <= i < |events| && events[i] == e;
      }
    }
    SweepOfFresh(again);
  }
}
