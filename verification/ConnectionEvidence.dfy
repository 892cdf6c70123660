/**
 What the stream's events prove, taken from the events alone: the bytes of every entry the
 collector makes, whom its counters count, and what a close leaves. The collector's books
 add up to exactly that.
 */
module ConnectionEvidence {
  import opened Common
  import opened Sums
  import opened ConnectionBucket
  import opened ConnectionCollector
  import opened ConnectionSession

  // ----- What one event proves -----

  datatype Marks = Marks(uplink: nat, downlink: nat)

  /** A tick adds what it grew by, totals raise to their level; nothing lowers a mark. */
  function Proven(m: Marks, e: Event): Marks {
    match e
    case Update(_, up, down) => Marks(m.uplink + (if up > 0 then up else 0), m.downlink + (if down > 0 then down else 0))
    case New(_, c) => if c.None? then m else AtLeast(m, c.value.uplinkTotal, c.value.downlinkTotal)
    case Closed(_, c, _) => if c.None? then m else AtLeast(m, c.value.uplinkTotal, c.value.downlinkTotal)
    case Unknown => m
  }

  function AtLeast(m: Marks, up: int, down: int): Marks {
    Marks(if up > m.uplink then up else m.uplink, if down > m.downlink then down else m.downlink)
  }

  /** The entry an event is about: the tracked one, or the next that is made, for a new
      connection there is room for and for a closed one that is not known already. */
  function About(s: State, e: Event): Option<nat> {
    match e
    case Update(id, _, _) => if id in s.live then Some(s.live[id].entry) else None
    case New(_, c) =>
      if c.None? || EventId(e) == "" then None
      else if EventId(e) in s.live then Some(s.live[EventId(e)].entry)
      else if c.value.session.None? then None
      else if c.value.closedAt == 0 then (if |s.live| < 4096 then Some(s.entries) else None)
      else if EventId(e) in s.accounted || c.value.closedAt <= s.startupClose then None
      else Some(s.entries)
    case Closed(id, c, _) =>
      if id == "" then None
      else if id in s.live then Some(s.live[id].entry)
      else if id in s.accounted || c.None? || c.value.session.None? then None
      else Some(s.entries)
    case Unknown => None
  }

  /** The evidence so far: for every entry ever made, what its events prove. */
  function Heard(m: map<nat, Marks>, about: Option<nat>, e: Event): map<nat, Marks> {
    if about.None? then m
    else m[about.value := Proven(if about.value in m then m[about.value] else Marks(0, 0), e)]
  }

  function EvidenceOf(s: State, events: seq<Event>, now: int, m: map<nat, Marks>): map<nat, Marks> {
    if events == [] then m
    else
      var init, last := events[..|events| - 1], events[|events| - 1];
      Heard(EvidenceOf(s, init, now, m), About(ApplyEvents(s, init, now), last), last)
  }

  ghost function Evidence(s: State, ops: seq<Op>): map<nat, Marks> {
    if ops == [] then map[]
    else
      var init, op := ops[..|ops| - 1], ops[|ops| - 1];
      match op
      case Batch(reset, events, now) => EvidenceOf(Begin(After(s, init), reset), events, now, Evidence(s, init))
      case Report => Evidence(s, init)
  }

  function Total(m: map<nat, Marks>): nat -> int {
    k => if k in m then m[k].uplink + m[k].downlink else 0
  }

  function Bytes(s: State): int {
    s.books.drained + s.coverage.bytesObserved + s.books.refused
  }

  // ----- The books are backed -----

  /** There is evidence for every entry, the marks of tracked ones are exactly what it says,
      and all bytes drained, pending and refused are what all of it adds up to. */
  ghost predicate Backed(s: State, m: map<nat, Marks>) {
    && (forall k: nat :: k in m <==> k < s.entries)
    && (forall id <- s.live :: Holds(s, m, id))
    && Bytes(s) == Sum(m.Keys, Total(m))
  }

  predicate Holds(s: State, m: map<nat, Marks>, id: string)
    requires id in s.live
  {
    s.live[id].entry in m && m[s.live[id].entry] == Marks(s.live[id].uplink, s.live[id].downlink)
  }

  lemma TotalOfOneMore(m: map<nat, Marks>, k: nat, x: Marks)
    ensures Sum(m[k := x].Keys, Total(m[k := x])) ==
      Sum(m.Keys, Total(m)) - (if k in m then m[k].uplink + m[k].downlink else 0) + x.uplink + x.downlink
  {
    var after := m[k := x];
    SumRemove(after.Keys, Total(after), k);
    if k in m {
      SumRemove(m.Keys, Total(m), k);
      assert after.Keys - {k} == m.Keys - {k};
    } else {
      assert after.Keys - {k} == m.Keys == m.Keys - {k};
    }
    SumSame(m.Keys - {k}, Total(after), Total(m));
  }

  /** The marks of every other entry are as before. */
  lemma OtherStands(s: State, m: map<nat, Marks>, r: State, id: string, k: nat, x: Marks, b: string)
    requires b != id && b in r.live && r.live - {id} == s.live - {id}
    requires b in s.live ==> Holds(s, m, b) && s.live[b].entry != k
    ensures Holds(r, m[k := x], b)
  {
    assert b in r.live - {id} && b in s.live - {id} && (r.live - {id})[b] == (s.live - {id})[b];
  }

  lemma OtherEntries(s: State, m: map<nat, Marks>, id: string, k: nat, b: string)
    requires Backed(s, m) && Tells(s) && b in s.live && b != id
    requires if id in s.live then k == s.live[id].entry else k == s.entries
    ensures Holds(s, m, b) && s.live[b].entry != k
  {
    hide Growing, Reflects;
  }

  /** Entry `k` now stands at `x` under `id`, or nowhere; all others are as before. */
  lemma OneEntryMoves(s: State, m: map<nat, Marks>, r: State, id: string, k: nat, x: Marks)
    requires Backed(s, m) && Tells(s)
    requires if id in s.live then k == s.live[id].entry && r.entries == s.entries else k == s.entries && r.entries == s.entries + 1
    requires r.live - {id} == s.live - {id}
    requires id in r.live ==> r.live[id].entry == k && x == Marks(r.live[id].uplink, r.live[id].downlink)
    requires Bytes(r) == Bytes(s) + x.uplink + x.downlink - if k in m then m[k].uplink + m[k].downlink else 0
    ensures Backed(r, m[k := x])
  {
    forall b <- r.live
      ensures Holds(r, m[k := x], b)
    {
      if b != id {
        hide Backed, Tells, Holds, Bytes;
        if b in s.live {
          OtherEntries(s, m, id, k, b);
        }
        OtherStands(s, m, r, id, k, x, b);
      }
    }
    if id in s.live {
      BackedHolds(s, m, id);
    }
    hide Holds, Tells, Bytes;
    TotalOfOneMore(m, k, x);
  }

  lemma RecordBooks(s: State, t: Tracked, at: int, grown: nat, opens: nat, closes: nat, duration: nat)
    requires ConnectionCollector.Inv(s)
    ensures var r := Record(s, t, at, grown, opens, closes, duration);
      r.live == s.live && r.entries == s.entries && Bytes(r) == Bytes(s) + grown
  {
    RecordMoves(s, t, at, grown, opens, closes, duration);
    RecordKeepsLive(s, t, at, grown, opens, closes, duration);
  }

  lemma RetireBooks(s: State, id: string, t: Tracked, closedAt: int)
    ensures var r := Retire(s, id, t, closedAt);
      r.live == s.live - {id} && r.entries == s.entries && Bytes(r) == Bytes(s)
  {
  }

  lemma CloseBooks(s: State, id: string, t: Tracked, closedAt: int, grown: nat, opens: nat)
    requires ConnectionCollector.Inv(s)
    ensures var r := Close(s, id, t, closedAt, grown, opens);
      r.live == s.live - {id} && r.entries == s.entries && Bytes(r) == Bytes(s) + grown
  {
    var duration := if t.createdAt > 0 && closedAt > t.createdAt then closedAt - t.createdAt else 0;
    assert Close(s, id, t, closedAt, grown, opens) == Retire(Record(s, t, closedAt, grown, opens, 1, duration), id, t, closedAt) by {
      hide Record, Retire, ConnectionCollector.Inv;
    }
    hide Record, Retire, Close, Bytes, ConnectionCollector.Inv;
    RecordBooks(s, t, closedAt, grown, opens, 1, duration);
    RetireBooks(Record(s, t, closedAt, grown, opens, 1, duration), id, t, closedAt);
  }

  lemma RecordIgnoresLive(s: State, live: map<string, Tracked>, t: Tracked, at: int, grown: nat, opens: nat)
    requires ConnectionCollector.Inv(s)
    ensures var r := Record(s.(live := live), t, at, grown, opens, 0, 0);
      r.live == live && r.entries == s.entries && Bytes(r) == Bytes(s) + grown
  {
    RecordBooks(s, t, at, grown, opens, 0, 0);
  }

  /** What the books and the live map look like once an entry stands at `t`, or is gone. */
  ghost predicate MovedTo(s: State, r: State, id: string, t: Tracked, entries: nat) {
    && r.live - {id} == s.live - {id} && r.entries == entries
    && (id in r.live ==> r.live[id] == t)
    && Bytes(r) == Bytes(s) + t.Total() - if id in s.live then s.live[id].Total() else 0
  }

  lemma TouchedBooks(s: State, t: Tracked)
    requires ConnectionCollector.Inv(s)
    ensures Bytes(Touched(s, t)) == Bytes(s) == Bytes(Entered(s, t))
    ensures Touched(s, t).live == s.live == Entered(s, t).live
    ensures Touched(s, t).entries == s.entries == Entered(s, t).entries - 1
    ensures ConnectionCollector.Inv(Touched(s, t)) && ConnectionCollector.Inv(Entered(s, t))
  {
    CountersKeepInv(s, t);
  }

  lemma WithoutIt(live: map<string, Tracked>, id: string, t: Tracked)
    ensures live - {id} - {id} == live - {id} == live[id := t] - {id}
  {
  }

  lemma SeenMoves(s: State, id: string, t: Tracked, at: int, closedAt: int)
    requires ConnectionCollector.Inv(s) && id in s.live && t.Total() >= s.live[id].Total()
    ensures MovedTo(s, Seen(s, id, t, at, closedAt), id, Marked(s, t), s.entries)
    ensures MovedTo(s, SeenClosed(s, id, t, closedAt), id, Marked(s, t), s.entries)
  {
    hide ConnectionCollector.Inv, Record, Close, Touched, Bytes;
    var marked, touched, grown := Marked(s, t), Touched(s, s.live[id]), t.Total() - s.live[id].Total();
    TouchedBooks(s, s.live[id]);
    WithoutIt(s.live, id, marked);
    CloseBooks(touched, id, marked, closedAt, grown, 0);
    RecordIgnoresLive(touched, s.live[id := marked], marked, at, grown, 0);
  }

  lemma SeenIsBacked(s: State, m: map<nat, Marks>, id: string, t: Tracked, at: int, closedAt: int, r: State)
    requires ConnectionCollector.Inv(s) && Tells(s) && Backed(s, m) && id in s.live && Rises(s.live[id], t)
    requires r == Seen(s, id, t, at, closedAt) || r == SeenClosed(s, id, t, closedAt)
    ensures Backed(r, m[s.live[id].entry := Marks(t.uplink, t.downlink)])
  {
    SeenMoves(s, id, t, at, closedAt);
    hide Seen, SeenClosed, Backed, Tells, ConnectionCollector.Inv;
    BackedHolds(s, m, id);
    OneEntryMoves(s, m, r, id, s.live[id].entry, Marks(t.uplink, t.downlink));
  }

  lemma BackedHolds(s: State, m: map<nat, Marks>, id: string)
    requires Backed(s, m) && id in s.live
    ensures Holds(s, m, id)
  {
  }

  lemma EnteredMoves(s: State, id: string, c: Connection, at: int)
    requires ConnectionCollector.Inv(s) && id !in s.live && c.session.Some?
    ensures var t := Advanced(Fresh(s, c), c.uplinkTotal, c.downlinkTotal).(counted := true);
      && MovedTo(s, Recover(s, id, c, at), id, t, s.entries + 1)
      && (|s.live| < MAX_TRACKED ==> MovedTo(s, Open(s, id, c, at), id, t, s.entries + 1))
  {
    hide ConnectionCollector.Inv, Record, Close, Touched, Entered, Bytes, Advanced;
    var t := Advanced(Fresh(s, c), c.uplinkTotal, c.downlinkTotal);
    var marked := t.(counted := true);
    TouchedBooks(s, t);
    WithoutIt(s.live, id, marked);
    CloseBooks(Entered(s, t), id, marked, at, t.Total(), 1);
    RecordIgnoresLive(Entered(s, t), s.live[id := marked], marked, at, t.Total(), 1);
  }

  lemma EnteredIsBacked(s: State, m: map<nat, Marks>, id: string, c: Connection, at: int, r: State)
    requires ConnectionCollector.Inv(s) && Tells(s) && Backed(s, m) && id !in s.live && c.session.Some?
    requires r == Recover(s, id, c, at) || (|s.live| < MAX_TRACKED && r == Open(s, id, c, at))
    ensures Backed(r, m[s.entries := AtLeast(Marks(0, 0), c.uplinkTotal, c.downlinkTotal)])
  {
    EnteredMoves(s, id, c, at);
    NoEntryYet(s, m);
    var t := Advanced(Fresh(s, c), c.uplinkTotal, c.downlinkTotal);
    hide Recover, Open, Backed, Tells, ConnectionCollector.Inv;
    OneEntryMoves(s, m, r, id, s.entries, Marks(t.uplink, t.downlink));
  }

  /** Counters of gaps and refusals are no evidence. */
  lemma OtherCountersAreBacked(s: State, m: map<nat, Marks>)
    requires ConnectionCollector.Inv(s) && Tells(s) && Backed(s, m)
    ensures ConnectionCollector.Inv(Orphaned(s)) && Tells(Orphaned(s)) && Backed(Orphaned(s), m)
    ensures ConnectionCollector.Inv(Dropped(s)) && Tells(Dropped(s)) && Backed(Dropped(s), m)
  {
    OtherCountersTell(s);
    hide Tells, Backed;
    CountersKeepInv(s, Tracked(0, SessionKey("", ""), false, 0, 0, 0, 0, false));
    hide ConnectionCollector.Inv;
    SameEntriesAreBacked(s, m, Orphaned(s));
    SameEntriesAreBacked(s, m, Dropped(s));
  }

  lemma OtherCountersTell(s: State)
    requires Tells(s)
    ensures Tells(Orphaned(s)) && Tells(Dropped(s))
  {
  }

  lemma NewIsBacked(s: State, m: map<nat, Marks>, e: Event, now: int)
    requires ConnectionCollector.Inv(s) && Tells(s) && Backed(s, m) && e.New?
    ensures Backed(ApplyNew(s, e, now), Heard(m, About(s, e), e))
  {
    hide Seen, Open, Recover, Backed, Tells, ConnectionCollector.Inv;
    OtherCountersAreBacked(s, m);
    if e.connection.Some? && EventId(e) != "" {
      var id, c := EventId(e), e.connection.value;
      if id in s.live {
        BackedHolds(s, m, id);
        SeenIsBacked(s, m, id, Advanced(s.live[id], c.uplinkTotal, c.downlinkTotal), now, c.closedAt, ApplyNew(s, e, now));
      } else if c.session.None? {
        NothingToTrack(s, id, c, now);
      } else if c.closedAt == 0 {
        if |s.live| < MAX_TRACKED {
          NoEntryYet(s, m);
          EnteredIsBacked(s, m, id, c, now, Open(s, id, c, now));
        } else {
          NothingToTrack(s, id, c, now);
        }
      } else if id !in s.accounted && c.closedAt > s.startupClose {
        NoEntryYet(s, m);
        EnteredIsBacked(Orphaned(s), m, id, c, c.closedAt, Recover(Orphaned(s), id, c, c.closedAt));
      }
    }
  }

  lemma NoEntryYet(s: State, m: map<nat, Marks>)
    requires Backed(s, m)
    ensures s.entries !in m
  {
  }

  lemma NothingToTrack(s: State, id: string, c: Connection, now: int)
    requires c.session.None? || |s.live| >= MAX_TRACKED
    ensures Open(s, id, c, now) == Dropped(s)
    ensures c.session.None? ==> Recover(s, id, c, now) == Dropped(s)
  {
  }

  lemma UpdateIsBacked(s: State, m: map<nat, Marks>, e: Event, now: int)
    requires ConnectionCollector.Inv(s) && Tells(s) && Backed(s, m) && e.Update?
    ensures Backed(ApplyUpdate(s, e, now), Heard(m, About(s, e), e))
  {
    hide Seen, Backed, Tells, ConnectionCollector.Inv;
    if e.id in s.live {
      BackedHolds(s, m, e.id);
      SeenIsBacked(s, m, e.id, Ticked(s.live[e.id], e), now, 0, ApplyUpdate(s, e, now));
    }
  }

  lemma ClosedIsBacked(s: State, m: map<nat, Marks>, e: Event, now: int)
    requires ConnectionCollector.Inv(s) && Tells(s) && Backed(s, m) && e.Closed?
    ensures Backed(ApplyClosed(s, e, now), Heard(m, About(s, e), e))
  {
    hide SeenClosed, Recover, Backed, Tells, ConnectionCollector.Inv;
    OtherCountersAreBacked(s, m);
    if e.id == "" {
    } else if e.id in s.live {
      BackedHolds(s, m, e.id);
      SeenIsBacked(s, m, e.id, LastSeen(s, e), now, CloseInstant(e, now), ApplyClosed(s, e, now));
    } else if e.id !in s.accounted && e.connection.Some? {
      if e.connection.value.session.None? {
        OtherCountersAreBacked(Orphaned(s), m);
        NothingToTrack(Orphaned(s), e.id, e.connection.value, CloseInstant(e, now));
      } else {
        NoEntryYet(s, m);
        EnteredIsBacked(Orphaned(s), m, e.id, e.connection.value, CloseInstant(e, now), ApplyClosed(s, e, now));
      }
    }
  }

  lemma EventIsBacked(s: State, m: map<nat, Marks>, e: Event, now: int)
    requires ConnectionCollector.Inv(s) && Tells(s) && Backed(s, m)
    ensures Backed(ApplyEvent(s, e, now), Heard(m, About(s, e), e))
  {
    hide ApplyNew, ApplyUpdate, ApplyClosed, Backed, About, Heard;
    match e {
      case New(_, _) => NewIsBacked(s, m, e, now);
      case Update(_, _, _) => UpdateIsBacked(s, m, e, now);
      case Closed(_, _, _) => ClosedIsBacked(s, m, e, now);
      case Unknown => UnknownIsNothing(s, m);
    }
  }

  lemma UnknownIsNothing(s: State, m: map<nat, Marks>)
    ensures Heard(m, About(s, Unknown), Unknown) == m
  {
  }

  lemma {:induction false} EventsAreBacked(s: State, m: map<nat, Marks>, events: seq<Event>, now: int)
    requires ConnectionCollector.Inv(s) && Tells(s) && Backed(s, m)
    ensures Backed(ApplyEvents(s, events, now), EvidenceOf(s, events, now, m))
  {
    hide ApplyEvent, Backed, Tells, ConnectionCollector.Inv, About, Heard;
    if events != [] {
      var init := events[..|events| - 1];
      EventsAreBacked(s, m, init, now);
      EventsKeepInv(s, init, now);
      EventsTell(s, init, now);
      EventIsBacked(ApplyEvents(s, init, now), EvidenceOf(s, init, now, m), events[|events| - 1], now);
    }
  }

  /** Everything but the stream's events leaves the evidence alone. */
  lemma SameEntriesAreBacked(s: State, m: map<nat, Marks>, r: State)
    requires Backed(s, m) && r.entries == s.entries && Bytes(r) == Bytes(s)
    requires forall id <- r.live :: id in s.live && SameMarks(s.live[id], r.live[id])
    ensures Backed(r, m)
  {
    forall id <- r.live
      ensures Holds(r, m, id)
    {
      assert Holds(s, m, id);
    }
  }

  predicate SameMarks(t: Tracked, u: Tracked) {
    u.entry == t.entry && u.uplink == t.uplink && u.downlink == t.downlink
  }

  lemma DrainIsBacked(s: State, m: map<nat, Marks>)
    requires Backed(s, m)
    ensures Backed(Drain(s), m)
  {
    var d := Drain(s);
    forall id <- d.live
      ensures id in s.live && SameMarks(s.live[id], d.live[id])
    {
    }
    SameEntriesAreBacked(s, m, d);
  }

  lemma SweepIsBacked(s: State, m: map<nat, Marks>)
    requires Backed(s, m)
    ensures Backed(Sweep(s), m)
  {
    hide Growth;
    SameEntriesAreBacked(s, m, Sweep(s));
  }

  /** Over every sequence of batches, replays and drains: every mark is what the entry's own
      events prove, and drained, pending and refused bytes are the sum of that over all
      entries ever made. */
  lemma {:induction false} BytesAreWhatEventsProve(startupClose: int, ops: seq<Op>)
    ensures var s, m := After(Start(startupClose), ops), Evidence(Start(startupClose), ops);
      && s.books.drained + s.coverage.bytesObserved + s.books.refused == Sum(m.Keys, Total(m))
      && (forall k: nat :: k in m <==> k < s.entries)
      && forall id <- s.live :: s.live[id].entry in m && m[s.live[id].entry] == Marks(s.live[id].uplink, s.live[id].downlink)
  {
    RunIsBacked(startupClose, ops);
    var s, m := After(Start(startupClose), ops), Evidence(Start(startupClose), ops);
    forall id <- s.live
      ensures Holds(s, m, id)
    {
    }
  }

  lemma {:induction false} RunIsBacked(startupClose: int, ops: seq<Op>)
    ensures Backed(After(Start(startupClose), ops), Evidence(Start(startupClose), ops))
  {
    if ops != [] {
      hide Backed, Tells, ConnectionCollector.Inv, ApplyEvents, EvidenceOf, Growth;
      var init, op := ops[..|ops| - 1], ops[|ops| - 1];
      var s, m := After(Start(startupClose), init), Evidence(Start(startupClose), init);
      RunIsBacked(startupClose, init);
      BytesAreConserved(startupClose, init);
      RunTells(startupClose, init);
      match op {
        case Batch(reset, events, now) =>
          BegunIsBacked(s, m, reset);
          EventsAreBacked(Begin(s, reset), m, events, now);
          SweepIsBacked(ApplyEvents(Begin(s, reset), events, now), EvidenceOf(Begin(s, reset), events, now, m));
        case Report =>
          DrainIsBacked(s, m);
      }
    }
  }

  lemma BegunIsBacked(s: State, m: map<nat, Marks>, reset: bool)
    requires ConnectionCollector.Inv(s) && Tells(s) && Backed(s, m)
    ensures ConnectionCollector.Inv(Begin(s, reset)) && Tells(Begin(s, reset)) && Backed(Begin(s, reset), m)
  {
    SameEntriesAreBacked(s, m, Begin(s, reset));
  }
}
