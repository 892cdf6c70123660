/**
 The snapshots of one tracked connection, from the entry made for it to its close or its
 sweep: they are of one session, and they only grow.
 */
module ConnectionSession {
  import opened Common
  import opened ConnectionBucket
  import opened ConnectionCollector

  // ----- Snapshots of one entry -----

  function LastShot(taken: seq<Shot>, entry: nat): Option<Shot> {
    if taken == [] then None
    else if taken[|taken| - 1].entry == entry then Some(taken[|taken| - 1])
    else LastShot(taken[..|taken| - 1], entry)
  }

  /** Snapshots of the same entry are of one session, and later ones have no smaller totals. */
  predicate Growing(taken: seq<Shot>) {
    forall i, j :: 0 <= i <= j < |taken| && taken[i].entry == taken[j].entry ==> Grown(taken[i], taken[j])
  }

  predicate Grown(a: Shot, b: Shot) {
    a.session == b.session && TotalsGrow(a.measures, b.measures)
  }

  lemma {:induction false} LatestIsLatest(taken: seq<Shot>, entry: nat, i: nat)
    requires Growing(taken) && i < |taken| && taken[i].entry == entry
    ensures LastShot(taken, entry).Some? && Grown(taken[i], LastShot(taken, entry).value)
  {
    if taken[|taken| - 1].entry == entry {
      assert Grown(taken[i], taken[|taken| - 1]);
    } else {
      LatestIsLatest(taken[..|taken| - 1], entry, i);
    }
  }

  lemma {:induction false} LatestIsTaken(taken: seq<Shot>, entry: nat)
    requires LastShot(taken, entry).Some?
    ensures LastShot(taken, entry).value in taken && LastShot(taken, entry).value.entry == entry
  {
    if taken[|taken| - 1].entry != entry {
      LatestIsTaken(taken[..|taken| - 1], entry);
    }
  }

  lemma OneMoreGrows(taken: seq<Shot>, shot: Shot)
    requires Growing(taken)
    requires match LastShot(taken, shot.entry) case None => true case Some(last) => Grown(last, shot)
    ensures Growing(taken + [shot])
  {
    var longer := taken + [shot];
    forall i, j | 0 <= i <= j < |longer| && longer[i].entry == longer[j].entry
      ensures Grown(longer[i], longer[j])
    {
      if j < |taken| {
        assert Grown(taken[i], taken[j]);
      } else if i < |taken| {
        LatestIsLatest(taken, shot.entry, i);
      }
    }
  }

  lemma LatestOfOneMore(taken: seq<Shot>, shot: Shot, entry: nat)
    ensures LastShot(taken + [shot], entry) == if shot.entry == entry then Some(shot) else LastShot(taken, entry)
  {
    assert (taken + [shot])[..|taken|] == taken;
  }

  // ----- What every event keeps -----

  /** The latest snapshot of an open entry has its high-water marks as totals. */
  predicate Reflects(last: Option<Shot>, t: Tracked) {
    && last.Some? && last.value.session == t.session
    && last.value.measures.opens == 1 && last.value.measures.closes == 0 && last.value.measures.duration == 0
    && last.value.measures.uplink == t.uplink && last.value.measures.downlink == t.downlink
  }

  predicate EntriesReflected(s: State) {
    forall id <- s.live :: s.live[id].entry < s.entries && Reflects(LastShot(s.books.taken, s.live[id].entry), s.live[id])
  }

  predicate EntriesDistinct(s: State) {
    forall a <- s.live, b <- s.live | a != b :: s.live[a].entry != s.live[b].entry
  }

  predicate EntriesKnown(s: State) {
    forall shot <- s.books.taken :: shot.entry < s.entries
  }

  predicate Tells(s: State) {
    Growing(s.books.taken) && EntriesReflected(s) && EntriesDistinct(s) && EntriesKnown(s)
  }

  /** Recording goes by the entry as it is now, whose marks may have risen. */
  predicate MayRecord(s: State, t: Tracked) {
    && Growing(s.books.taken) && EntriesKnown(s) && t.entry < s.entries
    && match LastShot(s.books.taken, t.entry)
       case None => true
       case Some(last) =>
         && last.session == t.session && last.measures.opens == 1
         && last.measures.closes == 0 && last.measures.duration == 0
         && last.measures.uplink <= t.uplink && last.measures.downlink <= t.downlink
  }

  lemma RecordTells(s: State, t: Tracked, at: int, grown: nat, opens: nat, closes: nat, duration: nat)
    requires MayRecord(s, t)
    ensures var r := Record(s, t, at, grown, opens, closes, duration);
      && Growing(r.books.taken) && EntriesKnown(r)
      && (forall entry: nat | entry != t.entry :: LastShot(r.books.taken, entry) == LastShot(s.books.taken, entry))
      && (grown != 0 || opens != 0 ==> closes == 0 == duration ==> Reflects(LastShot(r.books.taken, t.entry), t))
      && (grown == 0 && opens == 0 && closes == 0 ==> r == s)
  {
    if grown != 0 || opens != 0 || closes != 0 {
      var r := Record(s, t, at, grown, opens, closes, duration);
      var shot := r.books.taken[|s.books.taken|];
      assert r.books.taken == s.books.taken + [shot];
      assert shot.entry == t.entry && shot.measures == Snapshot(t, at, closes, duration);
      OneMoreGrows(s.books.taken, shot);
      forall entry: nat
        ensures LastShot(r.books.taken, entry) == if shot.entry == entry then Some(shot) else LastShot(s.books.taken, entry)
      {
        LatestOfOneMore(s.books.taken, shot, entry);
      }
    }
  }

  /** Everything is told, and `t` may be recorded under `id`, whose old entry it replaces. */
  predicate Ready(s: State, id: string, t: Tracked) {
    && MayRecord(s, t) && EntriesDistinct(s)
    && forall b <- s.live | b != id ::
         && s.live[b].entry != t.entry && s.live[b].entry < s.entries
         && Reflects(LastShot(s.books.taken, s.live[b].entry), s.live[b])
  }

  lemma KeepTells(s: State, id: string, t: Tracked, at: int, grown: nat, opens: nat, after: State)
    requires Ready(s, id, t) && (grown == 0 == opens ==> Reflects(LastShot(s.books.taken, t.entry), t))
    requires after == Record(s.(live := s.live[id := t]), t, at, grown, opens, 0, 0)
    ensures Tells(after)
  {
    hide Growing, Reflects;
    RecordTells(s.(live := s.live[id := t]), t, at, grown, opens, 0, 0);
    RecordKeepsLive(s.(live := s.live[id := t]), t, at, grown, opens, 0, 0);
    forall b <- after.live
      ensures after.live[b].entry < after.entries && Reflects(LastShot(after.books.taken, after.live[b].entry), after.live[b])
    {
    }
    forall a <- after.live, b <- after.live | a != b
      ensures after.live[a].entry != after.live[b].entry
    {
    }
  }

  lemma RecordKeepsLive(s: State, t: Tracked, at: int, grown: nat, opens: nat, closes: nat, duration: nat)
    ensures var r := Record(s, t, at, grown, opens, closes, duration); r.live == s.live && r.entries == s.entries
  {
  }

  lemma CloseTells(s: State, id: string, t: Tracked, closedAt: int, grown: nat, opens: nat, after: State)
    requires Ready(s, id, t)
    requires after == Close(s, id, t, closedAt, grown, opens)
    ensures Tells(after)
  {
    hide Growing, Reflects, Record;
    var duration := if t.createdAt > 0 && closedAt > t.createdAt then closedAt - t.createdAt else 0;
    RecordTells(s, t, closedAt, grown, opens, 1, duration);
    RecordKeepsLive(s, t, closedAt, grown, opens, 1, duration);
    forall b <- after.live
      ensures after.live[b].entry < after.entries && Reflects(LastShot(after.books.taken, after.live[b].entry), after.live[b])
    {
    }
    forall a <- after.live, b <- after.live | a != b
      ensures after.live[a].entry != after.live[b].entry
    {
      assert a in s.live && b in s.live;
    }
  }

  /** The same entry with marks no lower. */
  predicate Rises(t: Tracked, u: Tracked) {
    u.entry == t.entry && u.session == t.session && t.uplink <= u.uplink && t.downlink <= u.downlink
  }

  lemma SeenTells(s: State, id: string, t: Tracked, at: int, closedAt: int)
    requires Tells(s) && id in s.live && Rises(s.live[id], t)
    ensures Tells(Seen(s, id, t, at, closedAt)) && Tells(SeenClosed(s, id, t, closedAt))
  {
    hide Growing, Record, Close;
    var marked, touched := Marked(s, t), Touched(s, s.live[id]);
    assert Ready(touched, id, marked);
    var grown := t.Total() - s.live[id].Total();
    CloseTells(touched, id, marked, closedAt, grown, 0, SeenClosed(s, id, t, closedAt));
    KeepTells(touched, id, marked, at, grown, 0, Record(touched.(live := touched.live[id := marked]), marked, at, grown, 0, 0, 0));
  }

  lemma {:induction false} UnknownEntry(taken: seq<Shot>, entry: nat)
    requires forall shot <- taken :: shot.entry < entry
    ensures LastShot(taken, entry) == None
  {
    if taken != [] {
      UnknownEntry(taken[..|taken| - 1], entry);
    }
  }

  lemma EnteredReady(s: State, id: string, c: Connection)
    requires Tells(s) && id !in s.live && c.session.Some?
    ensures var t := Advanced(Fresh(s, c), c.uplinkTotal, c.downlinkTotal); Ready(Entered(s, t), id, t.(counted := true))
  {
    UnknownEntry(s.books.taken, s.entries);
  }

  lemma RecoverTells(s: State, id: string, c: Connection, closedAt: int)
    requires Tells(s) && id !in s.live
    ensures Tells(Recover(s, id, c, closedAt))
  {
    hide Close, Growing;
    if c.session.Some? {
      EnteredReady(s, id, c);
      var t := Advanced(Fresh(s, c), c.uplinkTotal, c.downlinkTotal);
      CloseTells(Entered(s, t), id, t.(counted := true), closedAt, t.Total(), 1, Recover(s, id, c, closedAt));
    }
  }

  lemma OpenTells(s: State, id: string, c: Connection, now: int)
    requires Tells(s) && id !in s.live
    ensures Tells(Open(s, id, c, now))
  {
    hide Record, Growing;
    if |s.live| < MAX_TRACKED && c.session.Some? {
      EnteredReady(s, id, c);
      var t := Advanced(Fresh(s, c), c.uplinkTotal, c.downlinkTotal);
      KeepTells(Entered(s, t), id, t.(counted := true), now, t.Total(), 1, Open(s, id, c, now));
    }
  }

  lemma EventTells(s: State, e: Event, now: int)
    requires Tells(s)
    ensures Tells(ApplyEvent(s, e, now))
  {
    hide Growing, Seen, SeenClosed, Recover, Open, Reflects;
    match e {
      case New(_, connection) =>
        if connection.Some? && EventId(e) != "" {
          var id, c := EventId(e), connection.value;
          if id in s.live {
            SeenTells(s, id, Advanced(s.live[id], c.uplinkTotal, c.downlinkTotal), now, c.closedAt);
          } else {
            OpenTells(s, id, c, now);
            assert Tells(Orphaned(s));
            RecoverTells(Orphaned(s), id, c, c.closedAt);
          }
        }
      case Update(id, _, _) =>
        if id in s.live {
          SeenTells(s, id, Ticked(s.live[id], e), now, 0);
        }
      case Closed(id, connection, _) =>
        if id in s.live {
          SeenTells(s, id, LastSeen(s, e), now, CloseInstant(e, now));
        } else if connection.Some? {
          assert Tells(Orphaned(s));
          RecoverTells(Orphaned(s), id, connection.value, CloseInstant(e, now));
        }
      case Unknown =>
    }
  }

  lemma {:induction false} EventsTell(s: State, events: seq<Event>, now: int)
    requires Tells(s)
    ensures Tells(ApplyEvents(s, events, now))
  {
    hide Tells, ApplyEvent;
    if events != [] {
      EventsTell(s, events[..|events| - 1], now);
      EventTells(ApplyEvents(s, events[..|events| - 1], now), events[|events| - 1], now);
    }
  }

  lemma {:induction false} RunTells(startupClose: int, ops: seq<Op>)
    ensures Tells(After(Start(startupClose), ops))
  {
    if ops != [] {
      hide Growing, Reflects, ApplyEvents, Growth;
      var init, op := ops[..|ops| - 1], ops[|ops| - 1];
      RunTells(startupClose, init);
      var s := After(Start(startupClose), init);
      if op.Batch? {
        assert Tells(Begin(s, op.reset));
        EventsTell(Begin(s, op.reset), op.events, op.now);
        SweepTells(ApplyEvents(Begin(s, op.reset), op.events, op.now));
      } else {
        DrainTells(s);
      }
    }
  }

  lemma SweepTells(s: State)
    requires Tells(s)
    ensures Tells(Sweep(s))
  {
    hide Growing, Growth, Reflects;
    assert forall b <- Sweep(s).live :: b in s.live && Sweep(s).live[b] == s.live[b];
  }

  lemma DrainTells(s: State)
    requires Tells(s)
    ensures Tells(Drain(s))
  {
    hide Growing;
    var d := Drain(s);
    forall b <- d.live
      ensures b in s.live && d.live[b] == s.live[b].(counted := d.live[b].counted)
    {
    }
  }

  /** Within the life of one entry, whatever events, replays and drains happen: its
      snapshots are of one session and only grow, and the latest one of an open entry has
      exactly its high-water marks. */
  lemma SnapshotsOnlyGrow(startupClose: int, ops: seq<Op>, i: nat, j: nat)
    requires var taken := After(Start(startupClose), ops).books.taken;
      i <= j < |taken| && taken[i].entry == taken[j].entry
    ensures var s := After(Start(startupClose), ops);
      && Grown(s.books.taken[i], s.books.taken[j])
      && forall id <- s.live :: Reflects(LastShot(s.books.taken, s.live[id].entry), s.live[id])
  {
    RunTells(startupClose, ops);
  }
}
