/**
 What arrives at the server of a session's snapshots: buckets merge snapshots, drains cut
 in anywhere, and the server merges the drained buckets again.
 */
module ConnectionArrival {
  import opened Common
  import opened ConnectionBucket
  import opened ConnectionCollector
  import opened ConnectionSession

  /** The snapshots there was room for, of one session. */
  function StoredOf(taken: seq<Shot>, key: SessionKey): seq<Measures> {
    if taken == [] then []
    else
      var last := taken[|taken| - 1];
      StoredOf(taken[..|taken| - 1], key) + if last.stored && last.session == key then [last.measures] else []
  }

  function DrainedOf(shipped: seq<map<SessionKey, Measures>>, key: SessionKey): seq<Measures> {
    if shipped == [] then []
    else
      var last := shipped[|shipped| - 1];
      DrainedOf(shipped[..|shipped| - 1], key) + if key in last then [last[key]] else []
  }

  function Pending(buckets: map<SessionKey, Measures>, key: SessionKey): seq<Measures> {
    if key in buckets then [buckets[key]] else []
  }

  /** The buckets of one session: those drained so far, and the one that waits. */
  function BucketsOf(s: State, key: SessionKey): seq<Measures> {
    DrainedOf(s.books.shipped, key) + Pending(s.buckets, key)
  }

  predicate SameJoin(a: seq<Measures>, b: seq<Measures>) {
    if a == [] || b == [] then a == b else JoinAll(a) == JoinAll(b)
  }

  predicate Arrives(s: State, key: SessionKey) {
    SameJoin(StoredOf(s.books.taken, key), BucketsOf(s, key))
  }

  lemma JoinAssociates(a: Measures, b: Measures, c: Measures)
    ensures Join(Join(a, b), c) == Join(a, Join(b, c))
  {
  }

  lemma JoinAllOfOneMore(init: seq<Measures>, last: Measures)
    ensures JoinAll(init + [last]) == if init == [] then last else Join(JoinAll(init), last)
  {
    assert (init + [last])[..|init|] == init;
  }

  lemma StoredOfOneMore(taken: seq<Shot>, shot: Shot, key: SessionKey)
    ensures StoredOf(taken + [shot], key) ==
      StoredOf(taken, key) + if shot.stored && shot.session == key then [shot.measures] else []
  {
    assert (taken + [shot])[..|taken|] == taken;
  }

  /** Merging into the waiting bucket is as good as storing a bucket of its own. */
  lemma MergeArrives(stored: seq<Measures>, drained: seq<Measures>, waiting: Measures, m: Measures)
    requires SameJoin(stored, drained + [waiting])
    ensures SameJoin(stored + [m], drained + [Join(waiting, m)])
  {
    JoinAllOfOneMore(stored, m);
    JoinAllOfOneMore(drained, waiting);
    JoinAllOfOneMore(drained, Join(waiting, m));
    if drained != [] {
      JoinAssociates(JoinAll(drained), waiting, m);
    }
  }

  lemma StoreArrives(stored: seq<Measures>, drained: seq<Measures>, m: Measures)
    requires SameJoin(stored, drained)
    ensures SameJoin(stored + [m], drained + [m])
  {
    JoinAllOfOneMore(stored, m);
    JoinAllOfOneMore(drained, m);
  }

  /** What recording a snapshot does to the snapshots made and to one session's bucket. */
  lemma RecordStores(s: State, t: Tracked, at: int, grown: nat, opens: nat, closes: nat, duration: nat, key: SessionKey)
    requires grown != 0 || opens != 0 || closes != 0
    ensures var r := Record(s, t, at, grown, opens, closes, duration);
      var shot := Shot(t.entry, t.session, Snapshot(t, at, closes, duration), t.session in s.buckets || |s.buckets| < MAX_BUCKETS);
      && r.books.taken == s.books.taken + [shot] && r.books.shipped == s.books.shipped
      && Pending(r.buckets, key) ==
        if !shot.stored || shot.session != key then Pending(s.buckets, key)
        else if key in s.buckets then [Join(s.buckets[key], shot.measures)]
        else [shot.measures]
  {
    hide Merged;
  }

  lemma RecordArrives(s: State, t: Tracked, at: int, grown: nat, opens: nat, closes: nat, duration: nat, key: SessionKey)
    requires Arrives(s, key)
    ensures Arrives(Record(s, t, at, grown, opens, closes, duration), key)
  {
    if grown != 0 || opens != 0 || closes != 0 {
      RecordStores(s, t, at, grown, opens, closes, duration, key);
      var r := Record(s, t, at, grown, opens, closes, duration);
      var shot := Shot(t.entry, t.session, Snapshot(t, at, closes, duration), t.session in s.buckets || |s.buckets| < MAX_BUCKETS);
      StoredOfOneMore(s.books.taken, shot, key);
      hide SameJoin, DrainedOf, StoredOf, Record, Snapshot, Join;
      var stored, drained := StoredOf(s.books.taken, key), DrainedOf(s.books.shipped, key);
      if !shot.stored || shot.session != key {
        assert StoredOf(r.books.taken, key) == stored;
      } else if key in s.buckets {
        MergeArrives(stored, drained, s.buckets[key], shot.measures);
      } else {
        assert BucketsOf(s, key) == drained;
        StoreArrives(stored, drained, shot.measures);
      }
    }
  }

  lemma DrainArrives(s: State, key: SessionKey)
    requires Arrives(s, key)
    ensures Arrives(Drain(s), key)
  {
    if !NothingToReport(s) {
      var d := Drain(s);
      assert (s.books.shipped + [s.buckets])[..|s.books.shipped|] == s.books.shipped;
      assert BucketsOf(d, key) == BucketsOf(s, key);
    }
  }

  lemma SameTellingArrives(s: State, r: State, key: SessionKey)
    requires Arrives(s, key) && r.buckets == s.buckets
    requires r.books.taken == s.books.taken && r.books.shipped == s.books.shipped
    ensures Arrives(r, key)
  {
  }

  lemma CloseArrives(s: State, id: string, t: Tracked, closedAt: int, grown: nat, opens: nat, key: SessionKey)
    requires Arrives(s, key)
    ensures Arrives(Close(s, id, t, closedAt, grown, opens), key)
  {
    hide Arrives, Record;
    var duration := if t.createdAt > 0 && closedAt > t.createdAt then closedAt - t.createdAt else 0;
    var recorded := Record(s, t, closedAt, grown, opens, 1, duration);
    RecordArrives(s, t, closedAt, grown, opens, 1, duration, key);
    SameTellingArrives(recorded, Retire(recorded, id, t, closedAt), key);
  }

  lemma SeenArrives(s: State, id: string, t: Tracked, at: int, closedAt: int, key: SessionKey)
    requires Arrives(s, key) && id in s.live && t.Total() >= s.live[id].Total()
    ensures Arrives(Seen(s, id, t, at, closedAt), key) && Arrives(SeenClosed(s, id, t, closedAt), key)
  {
    hide Arrives, Record, Close;
    var marked, touched := Marked(s, t), Touched(s, s.live[id]);
    var kept, grown := touched.(live := s.live[id := marked]), t.Total() - s.live[id].Total();
    SameTellingArrives(s, touched, key);
    SameTellingArrives(s, kept, key);
    CloseArrives(touched, id, marked, closedAt, grown, 0, key);
    RecordArrives(kept, marked, at, grown, 0, 0, 0, key);
  }

  lemma RecoverArrives(s: State, id: string, c: Connection, closedAt: int, key: SessionKey)
    requires Arrives(s, key)
    ensures Arrives(Recover(s, id, c, closedAt), key)
  {
    hide Arrives, Close;
    if c.session.None? {
      SameTellingArrives(s, Dropped(s), key);
    } else {
      var t := Advanced(Fresh(s, c), c.uplinkTotal, c.downlinkTotal);
      SameTellingArrives(s, Entered(s, t), key);
      CloseArrives(Entered(s, t), id, t.(counted := true), closedAt, t.Total(), 1, key);
    }
  }

  lemma OpenArrives(s: State, id: string, c: Connection, now: int, key: SessionKey)
    requires Arrives(s, key)
    ensures Arrives(Open(s, id, c, now), key)
  {
    hide Arrives, Record;
    if |s.live| >= MAX_TRACKED || c.session.None? {
      SameTellingArrives(s, Dropped(s), key);
    } else {
      var t := Advanced(Fresh(s, c), c.uplinkTotal, c.downlinkTotal);
      var marked := t.(counted := true);
      var kept := Entered(s, t).(live := s.live[id := marked]);
      SameTellingArrives(s, kept, key);
      RecordArrives(kept, marked, now, t.Total(), 1, 0, 0, key);
    }
  }

  lemma EventArrives(s: State, e: Event, now: int, key: SessionKey)
    requires Arrives(s, key)
    ensures Arrives(ApplyEvent(s, e, now), key)
  {
    hide Arrives, Seen, SeenClosed, Recover, Open;
    SameTellingArrives(s, Orphaned(s), key);
    SameTellingArrives(s, Dropped(s), key);
    match e {
      case New(_, connection) =>
        if connection.Some? && EventId(e) != "" {
          var id, c := EventId(e), connection.value;
          if id in s.live {
            SeenArrives(s, id, Advanced(s.live[id], c.uplinkTotal, c.downlinkTotal), now, c.closedAt, key);
          } else {
            OpenArrives(s, id, c, now, key);
            RecoverArrives(Orphaned(s), id, c, c.closedAt, key);
          }
        }
      case Update(id, _, _) =>
        if id in s.live {
          SeenArrives(s, id, Ticked(s.live[id], e), now, 0, key);
        }
      case Closed(id, connection, _) =>
        if id in s.live {
          SeenArrives(s, id, LastSeen(s, e), now, CloseInstant(e, now), key);
        } else if connection.Some? {
          RecoverArrives(Orphaned(s), id, connection.value, CloseInstant(e, now), key);
        }
      case Unknown =>
    }
  }

  lemma {:induction false} EventsArrive(s: State, events: seq<Event>, now: int, key: SessionKey)
    requires Arrives(s, key)
    ensures Arrives(ApplyEvents(s, events, now), key)
  {
    hide Arrives, ApplyEvent;
    if events != [] {
      EventsArrive(s, events[..|events| - 1], now, key);
      EventArrives(ApplyEvents(s, events[..|events| - 1], now), events[|events| - 1], now, key);
    }
  }

  /** Whatever events, replays and drains happen: the buckets of a session, drained and
      waiting, merge to what its stored snapshots merge to. */
  lemma {:induction false} StoredSnapshotsArrive(startupClose: int, ops: seq<Op>, key: SessionKey)
    ensures Arrives(After(Start(startupClose), ops), key)
  {
    if ops != [] {
      hide Arrives, ApplyEvents, Growth;
      var init, op := ops[..|ops| - 1], ops[|ops| - 1];
      StoredSnapshotsArrive(startupClose, init, key);
      var s := After(Start(startupClose), init);
      if op.Batch? {
        SameTellingArrives(s, Begin(s, op.reset), key);
        EventsArrive(Begin(s, op.reset), op.events, op.now, key);
        var applied := ApplyEvents(Begin(s, op.reset), op.events, op.now);
        SameTellingArrives(applied, Sweep(applied), key);
      } else {
        DrainArrives(s, key);
      }
    }
  }

  // ----- The totals that arrive -----

  /** All snapshots of the session were made for one entry. */
  predicate OneEntry(taken: seq<Shot>, key: SessionKey, entry: nat) {
    forall shot <- taken :: shot.session == key ==> shot.entry == entry
  }

  lemma {:induction false} StoredOfAt(taken: seq<Shot>, key: SessionKey, k: nat) returns (i: nat)
    requires k < |StoredOf(taken, key)|
    ensures i < |taken| && taken[i].session == key && taken[i].stored && taken[i].measures == StoredOf(taken, key)[k]
  {
    var n := |taken| - 1;
    if k < |StoredOf(taken[..n], key)| {
      i := StoredOfAt(taken[..n], key, k);
    } else {
      i := n;
    }
  }

  predicate TotalsAscend(stored: seq<Measures>) {
    forall i, j :: 0 <= i < j < |stored| ==> TotalsGrow(stored[i], stored[j])
  }

  lemma {:induction false} StoredOfGrows(taken: seq<Shot>, key: SessionKey, entry: nat)
    requires Growing(taken) && OneEntry(taken, key, entry)
    ensures TotalsAscend(StoredOf(taken, key))
  {
    if taken != [] {
      var n := |taken| - 1;
      StoredOfGrows(taken[..n], key, entry);
      var before, stored := StoredOf(taken[..n], key), StoredOf(taken, key);
      hide TotalsGrow;
      forall i, j | 0 <= i < j < |stored|
        ensures TotalsGrow(stored[i], stored[j])
      {
        if j < |before| {
          assert TotalsGrow(before[i], before[j]);
        } else {
          var a := StoredOfAt(taken[..n], key, i);
          assert taken[a] in taken && taken[n] in taken;
          assert Grown(taken[a], taken[n]);
        }
      }
    }
  }

  lemma {:induction false} LastStoredIsLatest(taken: seq<Shot>, key: SessionKey, entry: nat)
    requires OneEntry(taken, key, entry) && Growing(taken)
    requires LastShot(taken, entry).Some? && LastShot(taken, entry).value.stored && LastShot(taken, entry).value.session == key
    ensures var stored := StoredOf(taken, key);
      stored != [] && stored[|stored| - 1] == LastShot(taken, entry).value.measures
  {
    var n := |taken| - 1;
    if taken[n].entry != entry {
      assert taken[n] in taken;
      LastStoredIsLatest(taken[..n], key, entry);
    }
  }

  /** The server merges what arrives in any order and with any repetitions. If a session was
      tracked as one entry and its latest snapshot was not refused, the result has exactly the
      totals of that snapshot; while it is open, those are its high-water marks. */
  lemma SessionTotalsArrive(startupClose: int, ops: seq<Op>, key: SessionKey, entry: nat, arrived: seq<Measures>)
    requires var s := After(Start(startupClose), ops);
      var last := LastShot(s.books.taken, entry);
      && OneEntry(s.books.taken, key, entry) && last.Some? && last.value.session == key && last.value.stored
      && forall m :: m in arrived <==> m in BucketsOf(s, key)
    ensures var s := After(Start(startupClose), ops);
      && arrived != [] && SameTotals(JoinAll(arrived), LastShot(s.books.taken, entry).value.measures)
      && forall id <- s.live | s.live[id].entry == entry ::
           JoinAll(arrived).uplink == s.live[id].uplink && JoinAll(arrived).downlink == s.live[id].downlink
  {
    hide Growth, Growing, JoinAll;
    var s := After(Start(startupClose), ops);
    var stored, made := StoredOf(s.books.taken, key), BucketsOf(s, key);
    RunTells(startupClose, ops);
    StoredSnapshotsArrive(startupClose, ops, key);
    LastStoredIsLatest(s.books.taken, key, entry);
    assert made != [] && made[0] in made;
    MergeIgnoresOrderAndRepetition(arrived, made);
    StoredOfGrows(s.books.taken, key, entry);
    LatestTotalsWin(stored, stored);
  }
}
