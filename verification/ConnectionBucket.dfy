/**
 Session snapshots and their merge, and the key a bucket is stored under.
 */
module ConnectionBucket {

  /** A window bound; the text form is fixed-width, so its order is the order of time. */
  datatype Instant = Absent | At(ms: int)

  predicate Before(a: Instant, b: Instant) {
    b.At? && (a.Absent? || a.ms < b.ms)
  }

  datatype Measures = Measures(
    opens: nat,
    closes: nat,
    uplink: nat,
    downlink: nat,
    duration: nat,
    windowStart: Instant,
    windowEnd: Instant)

  function Max(a: nat, b: nat): nat {
    if a < b then b else a
  }

  function Earliest(a: Instant, b: Instant): Instant {
    if b.At? && (a.Absent? || Before(b, a)) then b else a
  }

  function Latest(a: Instant, b: Instant): Instant {
    if Before(a, b) then b else a
  }

  /** Session snapshots merge by maximum, legacy buckets by sum. */
  function Merged(a: Measures, b: Measures, session: bool): Measures {
    Measures(
      if session then Max(a.opens, b.opens) else a.opens + b.opens,
      if session then Max(a.closes, b.closes) else a.closes + b.closes,
      if session then Max(a.uplink, b.uplink) else a.uplink + b.uplink,
      if session then Max(a.downlink, b.downlink) else a.downlink + b.downlink,
      if session then Max(a.duration, b.duration) else a.duration + b.duration,
      Earliest(a.windowStart, b.windowStart),
      Latest(a.windowEnd, b.windowEnd))
  }

  class Bucket {
    const session: bool
    var opens: nat
    var closes: nat
    var uplink: nat
    var downlink: nat
    var duration: nat
    var windowStart: Instant
    var windowEnd: Instant

    function Value(): Measures
      reads this
    {
      Measures(opens, closes, uplink, downlink, duration, windowStart, windowEnd)
    }

    constructor (session: bool, m: Measures)
      ensures Value() == m && this.session == session
    {
      this.session := session;
      opens, closes := m.opens, m.closes;
      uplink, downlink, duration := m.uplink, m.downlink, m.duration;
      windowStart, windowEnd := m.windowStart, m.windowEnd;
    }

    method Merge(other: Measures)
      modifies this
      ensures Value() == Merged(old(Value()), other, session)
    {
      if session {
        opens, closes := Max(opens, other.opens), Max(closes, other.closes);
        uplink, downlink := Max(uplink, other.uplink), Max(downlink, other.downlink);
        duration := Max(duration, other.duration);
      } else {
        opens, closes := opens + other.opens, closes + other.closes;
        uplink, downlink := uplink + other.uplink, downlink + other.downlink;
        duration := duration + other.duration;
      }
      if other.windowStart.At? && (windowStart.Absent? || Before(other.windowStart, windowStart)) {
        windowStart := other.windowStart;
      }
      if Before(windowEnd, other.windowEnd) {
        windowEnd := other.windowEnd;
      }
    }
  }

  /** Of a session the larger total stands, of anything else the sum; the window spans both. */
  lemma MergeMeans(a: Measures, b: Measures)
    ensures var m := Merged(a, b, true);
      && m.opens == (if a.opens > b.opens then a.opens else b.opens)
      && m.closes == (if a.closes > b.closes then a.closes else b.closes)
      && m.uplink == (if a.uplink > b.uplink then a.uplink else b.uplink)
      && m.downlink == (if a.downlink > b.downlink then a.downlink else b.downlink)
      && m.duration == (if a.duration > b.duration then a.duration else b.duration)
    ensures var m := Merged(a, b, false);
      && m.opens == a.opens + b.opens && m.closes == a.closes + b.closes && m.uplink == a.uplink + b.uplink
      && m.downlink == a.downlink + b.downlink && m.duration == a.duration + b.duration
    ensures forall session: bool {:trigger Merged(a, b, session)} :: var m := Merged(a, b, session);
      && (m.windowStart == a.windowStart || m.windowStart == b.windowStart)
      && (m.windowEnd == a.windowEnd || m.windowEnd == b.windowEnd)
      && (forall i: Instant | i in {a.windowStart, b.windowStart} && i.At? :: m.windowStart.At? && m.windowStart.ms <= i.ms)
      && (forall i: Instant | i in {a.windowEnd, b.windowEnd} && i.At? :: m.windowEnd.At? && i.ms <= m.windowEnd.ms)
  {
  }

  // ----- Session snapshots form a semilattice -----

  function Join(a: Measures, b: Measures): Measures {
    Merged(a, b, true)
  }

  /** `b` already contains everything `a` says. */
  predicate Covers(b: Measures, a: Measures) {
    && a.opens <= b.opens && a.closes <= b.closes && a.duration <= b.duration
    && a.uplink <= b.uplink && a.downlink <= b.downlink
    && (a.windowStart == b.windowStart || a.windowStart.Absent? || (b.windowStart.At? && b.windowStart.ms < a.windowStart.ms))
    && (a.windowEnd == b.windowEnd || Before(a.windowEnd, b.windowEnd))
  }

  lemma JoinIsLeastUpperBound(a: Measures, b: Measures, c: Measures)
    ensures Covers(Join(a, b), a) && Covers(Join(a, b), b)
    ensures Covers(c, a) && Covers(c, b) ==> Covers(c, Join(a, b))
  {
  }

  lemma CoversIsAnOrder(a: Measures, b: Measures, c: Measures)
    ensures Covers(a, a)
    ensures Covers(a, b) && Covers(b, a) ==> a == b
    ensures Covers(a, b) && Covers(b, c) ==> Covers(a, c)
  {
  }

  function JoinAll(snapshots: seq<Measures>): Measures
    requires snapshots != []
  {
    if |snapshots| == 1 then snapshots[0]
    else Join(JoinAll(snapshots[..|snapshots| - 1]), snapshots[|snapshots| - 1])
  }

  lemma {:induction false} JoinAllIsLeastUpperBound(snapshots: seq<Measures>, c: Measures)
    requires snapshots != []
    ensures forall s <- snapshots :: Covers(JoinAll(snapshots), s)
    ensures (forall s <- snapshots :: Covers(c, s)) ==> Covers(c, JoinAll(snapshots))
  {
    if |snapshots| > 1 {
      var init, last := snapshots[..|snapshots| - 1], snapshots[|snapshots| - 1];
      JoinAllIsLeastUpperBound(init, c);
      JoinIsLeastUpperBound(JoinAll(init), last, c);
      forall s <- snapshots
        ensures Covers(JoinAll(snapshots), s)
      {
        if s != last {
          assert s in init;
          CoversIsAnOrder(JoinAll(snapshots), JoinAll(init), s);
        }
      }
    }
  }

  /** The same snapshots in any order, with any repetitions, merge to the same totals. */
  lemma MergeIgnoresOrderAndRepetition(a: seq<Measures>, b: seq<Measures>)
    requires a != [] && b != []
    requires forall s :: s in a <==> s in b
    ensures JoinAll(a) == JoinAll(b)
  {
    JoinAllIsLeastUpperBound(a, JoinAll(b));
    JoinAllIsLeastUpperBound(b, JoinAll(a));
    CoversIsAnOrder(JoinAll(a), JoinAll(b), JoinAll(a));
  }

  predicate SameTotals(a: Measures, b: Measures) {
    a.opens == b.opens && a.closes == b.closes && a.uplink == b.uplink && a.downlink == b.downlink && a.duration == b.duration
  }

  predicate TotalsGrow(a: Measures, b: Measures) {
    a.opens <= b.opens && a.closes <= b.closes && a.uplink <= b.uplink && a.downlink <= b.downlink && a.duration <= b.duration
  }

  /** However the growing snapshots of one session are delivered, as long as the
      latest one arrives the merge has exactly its totals. */
  lemma LatestTotalsWin(snapshots: seq<Measures>, delivered: seq<Measures>)
    requires snapshots != []
    requires forall i, j :: 0 <= i <= j < |snapshots| ==> TotalsGrow(snapshots[i], snapshots[j])
    requires forall s <- delivered :: s in snapshots
    requires snapshots[|snapshots| - 1] in delivered
    ensures SameTotals(JoinAll(delivered), snapshots[|snapshots| - 1])
  {
    var latest := snapshots[|snapshots| - 1];
    forall s <- delivered
      ensures TotalsGrow(s, latest)
    {
    }
    TotalsBounded(delivered, latest);
    JoinAllIsLeastUpperBound(delivered, latest);
  }

  lemma {:induction false} TotalsBounded(delivered: seq<Measures>, bound: Measures)
    requires delivered != [] && forall s <- delivered :: TotalsGrow(s, bound)
    ensures TotalsGrow(JoinAll(delivered), bound)
  {
    assert TotalsGrow(delivered[|delivered| - 1], bound);
    if |delivered| > 1 {
      TotalsBounded(delivered[..|delivered| - 1], bound);
    }
  }

  /** Legacy buckets add up, so a repetition is not harmless there. */
  lemma LegacyMergeCountsTwice(a: Measures)
    ensures Merged(a, a, false) == a <==> a.opens == a.closes == a.uplink == a.downlink == a.duration == 0
  {
  }

  // ----- The key -----

  const SEPARATOR := '\0'

  /** The fields of the key, as text; a bucket with a connection id is a session. */
  datatype Dimensions = Dimensions(connectionId: string, startedAt: string, others: seq<string>)
  {
    /** Everything of a legacy bucket but its measures: bucket start, credential,
        source, target and port, domain, network, version, protocol, inbound and
        type, rule, outbound and type, chain. */
    predicate Valid() {
      |others| == 15 && Plain(connectionId) && Plain(startedAt) && forall part <- others :: Plain(part)
    }
  }

  predicate Plain(s: string) {
    SEPARATOR !in s
  }

  function Joined(parts: seq<string>): string
    requires parts != []
  {
    if |parts| == 1 then parts[0] else parts[0] + [SEPARATOR] + Joined(parts[1..])
  }

  function DimensionKey(d: Dimensions): string
    requires d.Valid()
  {
    if d.connectionId != "" then "session" + [SEPARATOR] + d.connectionId + [SEPARATOR] + d.startedAt
    else Joined(d.others)
  }

  /** The first separator sits right behind a plain prefix. */
  lemma FirstSeparator(a: string, x: string)
    requires Plain(a)
    ensures var s := a + [SEPARATOR] + x;
      s[|a|] == SEPARATOR && s[..|a|] == a && s[|a| + 1..] == x && forall i :: 0 <= i < |a| ==> s[i] != SEPARATOR
  {
  }

  lemma PlainPrefix(a: string, b: string, x: string, y: string)
    requires Plain(a) && Plain(b) && a + [SEPARATOR] + x == b + [SEPARATOR] + y
    ensures a == b && x == y
  {
    FirstSeparator(a, x);
    FirstSeparator(b, y);
  }

  /** Joining plain parts loses nothing, not even how many there were. */
  lemma {:induction false} JoinedIsInjective(a: seq<string>, b: seq<string>)
    requires a != [] && b != [] && (forall p <- a :: Plain(p)) && (forall p <- b :: Plain(p))
    requires Joined(a) == Joined(b)
    ensures a == b
  {
    if |a| > 1 {
      FirstSeparator(a[0], Joined(a[1..]));
      assert !Plain(Joined(a));
    }
    if |b| > 1 {
      FirstSeparator(b[0], Joined(b[1..]));
      assert !Plain(Joined(b));
    }
    assert |a| == 1 <==> |b| == 1;
    if |a| > 1 {
      PlainPrefix(a[0], b[0], Joined(a[1..]), Joined(b[1..]));
      JoinedIsInjective(a[1..], b[1..]);
      assert a == [a[0]] + a[1..] && b == [b[0]] + b[1..];
    }
  }

  /** Two buckets share a key exactly when they are the same session, or both legacy
      with the same dimensions; a session never shares a key with a legacy bucket. */
  lemma KeyIsIdentity(a: Dimensions, b: Dimensions)
    requires a.Valid() && b.Valid()
    ensures DimensionKey(a) == DimensionKey(b) <==>
      if a.connectionId != "" then a.connectionId == b.connectionId && a.startedAt == b.startedAt
      else b.connectionId == "" && a.others == b.others
  {
    if DimensionKey(a) == DimensionKey(b) {
      JoinedIsInjective(KeyParts(a), KeyParts(b));
    }
  }

  function KeyParts(d: Dimensions): (parts: seq<string>)
    requires d.Valid()
    ensures parts != [] && Joined(parts) == DimensionKey(d) && forall p <- parts :: Plain(p)
    ensures |parts| == if d.connectionId != "" then 3 else 15
  {
    if d.connectionId != "" then
      assert Joined([d.startedAt]) == d.startedAt;
      assert ["session", d.connectionId, d.startedAt][1..] == [d.connectionId, d.startedAt];
      assert [d.connectionId, d.startedAt][1..] == [d.startedAt];
      assert "session" + [SEPARATOR] + (d.connectionId + [SEPARATOR] + d.startedAt) ==
        "session" + [SEPARATOR] + d.connectionId + [SEPARATOR] + d.startedAt;
      ["session", d.connectionId, d.startedAt]
    else d.others
  }
}
