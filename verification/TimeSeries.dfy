/**
 Server-side time series: how an instant finds its bucket, in the database and in the
 walk over all buckets, and why filling the gaps with zeros loses no count.
 */
module TimeSeries {
  import opened Common

  /** Instants are nanoseconds since the epoch. */
  const SECOND := 1_000_000_000
  const MINUTE := 60 * SECOND
  const HOUR := 60 * MINUTE
  const DAY := 24 * HOUR

  const HOUR_MAX_SPAN := 8 * DAY
  const DAY_MAX_SPAN := 400 * DAY
  const HOUR_DERIVATION_SPAN := 48 * HOUR
  const STARTS_HARD_CAP := 1024
  const OFFSET_MIN := -12 * 60
  const OFFSET_MAX := 14 * 60

  datatype Bucket = Hourly | Daily

  function Step(b: Bucket): int {
    if b == Daily then DAY else HOUR
  }

  function MaxSpan(b: Bucket): int {
    if b == Daily then DAY_MAX_SPAN else HOUR_MAX_SPAN
  }

  /** The operator's choice, or one derived from the span. */
  function ParseBucket(value: string, span: int): Option<Bucket> {
    if value == "" then Some(if span <= HOUR_DERIVATION_SPAN then Hourly else Daily)
    else if value == "hour" then Some(Hourly)
    else if value == "day" then Some(Daily)
    else None
  }

  datatype Window = Window(start: int, end: int, bucket: Bucket, offsetMinutes: int)

  /** What the API lets through. */
  predicate AcceptedWindow(start: int, end: int, b: Bucket) {
    start < end && end - start <= MaxSpan(b)
  }

  // ----- One instant -----

  function Floor(at: int, step: int): int
    requires step > 0
  {
    at - at % step
  }

  /** Hours are cut in UTC; days are cut in local time and shifted back. */
  function BucketStart(at: int, b: Bucket, offsetMinutes: int): int {
    if b == Hourly then Floor(at, HOUR)
    else Floor(at + offsetMinutes * MINUTE, DAY) - offsetMinutes * MINUTE
  }

  /** The database works on the text of the instant, cut to the hour or to the second,
      in whole seconds; this is the second its key names. */
  function SqlKey(at: int, b: Bucket, offsetMinutes: int): int {
    var seconds := at / SECOND;
    if b == Hourly then Floor(seconds, 3600)
    else Floor(seconds + offsetMinutes * 60, 86400) - offsetMinutes * 60
  }

  function BucketKey(start: int): int {
    start / SECOND
  }

  lemma FloorIsBelow(at: int, step: int)
    requires step > 0
    ensures Floor(at, step) <= at < Floor(at, step) + step
    ensures Floor(at, step) == at / step * step
  {
    assert at == at / step * step + at % step;
  }

  lemma NaturalProduct(m: nat, step: nat)
    ensures m * step >= 0
  {
  }

  lemma MultiplesApart(i: int, j: int, step: int)
    requires step > 0 && i < j
    ensures i * step + step <= j * step
  {
    var m := j - i - 1;
    NaturalProduct(m, step);
    assert j * step == (i + 1 + m) * step == i * step + step + m * step;
  }

  /** Two multiples of `step` less than one step apart are equal. */
  lemma SameMultiple(i: int, j: int, step: int)
    requires step > 0 && -step < i * step - j * step < step
    ensures i == j
  {
    if i < j {
      MultiplesApart(i, j, step);
    } else if j < i {
      MultiplesApart(j, i, step);
    }
  }

  /** Cutting to the second first does not change the larger cut. */
  lemma FloorOfSeconds(at: int, step: int)
    requires step > 0
    ensures Floor(at, step * SECOND) == Floor(at / SECOND, step) * SECOND
  {
    var seconds := at / SECOND;
    FloorIsBelow(at, SECOND);
    FloorIsBelow(seconds, step);
    FloorIsBelow(at, step * SECOND);
    var i, j := at / (step * SECOND), seconds / step;
    assert i * (step * SECOND) <= at < i * (step * SECOND) + step * SECOND;
    assert seconds * SECOND <= at < seconds * SECOND + SECOND;
    assert j * step <= seconds <= j * step + step - 1;
    assert j * (step * SECOND) == j * step * SECOND;
    SameMultiple(i, j, step * SECOND);
  }

  /** The database and the code put every instant into the same bucket, for every offset. */
  lemma SqlAgreesWithGo(at: int, b: Bucket, offsetMinutes: int)
    ensures BucketKey(BucketStart(at, b, offsetMinutes)) == SqlKey(at, b, offsetMinutes)
    ensures SqlKey(at, b, offsetMinutes) * SECOND == BucketStart(at, b, offsetMinutes)
  {
    if b == Hourly {
      FloorOfSeconds(at, 3600);
    } else {
      FloorOfSeconds(at + offsetMinutes * MINUTE, 86400);
      assert (at + offsetMinutes * MINUTE) / SECOND == at / SECOND + offsetMinutes * 60;
    }
  }

  /** A bucket start is the start of its own bucket, and a bucket spans one step. */
  lemma BucketSpan(at: int, b: Bucket, offsetMinutes: int)
    ensures BucketStart(at, b, offsetMinutes) <= at < BucketStart(at, b, offsetMinutes) + Step(b)
  {
    FloorIsBelow(at, HOUR);
    FloorIsBelow(at + offsetMinutes * MINUTE, DAY);
  }

  /** Bucket starts lie on one grid. */
  lemma BucketGrid(at: int, other: int, b: Bucket, offsetMinutes: int) returns (k: int)
    ensures BucketStart(other, b, offsetMinutes) == BucketStart(at, b, offsetMinutes) + k * Step(b)
  {
    if b == Hourly {
      FloorIsBelow(at, HOUR);
      FloorIsBelow(other, HOUR);
      k := other / HOUR - at / HOUR;
    } else {
      var shift := offsetMinutes * MINUTE;
      FloorIsBelow(at + shift, DAY);
      FloorIsBelow(other + shift, DAY);
      k := (other + shift) / DAY - (at + shift) / DAY;
    }
  }

  lemma FloorIsMultiple(at: int, step: int)
    requires step > 0
    ensures Floor(at, step) % step == 0
  {
    FloorIsBelow(at, step);
    assert at / step * step % step == 0 by { MultipleOf(at / step, step); }
  }

  lemma MultipleOf(k: int, step: int)
    requires step > 0
    ensures k * step % step == 0
  {
    var r := k * step % step;
    assert k * step == k * step / step * step + r;
    SameMultiple(k, k * step / step, step);
  }

  /** An hour bucket is the hour of UTC that holds the instant, a day bucket the day from
      midnight to midnight where local time is ahead of UTC by the offset. */
  lemma BucketIsLocal(at: int, b: Bucket, offsetMinutes: int)
    ensures var s := BucketStart(at, b, offsetMinutes);
      if b == Hourly then s % 3_600_000_000_000 == 0 && s <= at < s + 3_600_000_000_000
      else (s + offsetMinutes * 60_000_000_000) % 86_400_000_000_000 == 0 && s <= at < s + 86_400_000_000_000
  {
    BucketSpan(at, b, offsetMinutes);
    FloorIsMultiple(at, HOUR);
    FloorIsMultiple(at + offsetMinutes * MINUTE, DAY);
  }

  // ----- The walk over all buckets -----

  function Starts(first: int, count: nat, step: int): seq<int> {
    seq(count, i => first + i * step)
  }

  /** How many buckets touch the window. */
  function BucketCount(start: int, end: int, b: Bucket, offsetMinutes: int): int {
    (BucketStart(end, b, offsetMinutes) - BucketStart(start, b, offsetMinutes)) / Step(b) + 1
  }

  function Min(a: int, b: int): int {
    if a < b then a else b
  }

  /** One start a step, from the first bucket to the last, unless the cap cuts. */
  method BucketStarts(start: int, end: int, b: Bucket, offsetMinutes: int) returns (starts: seq<int>)
    ensures end < start ==> starts == []
    ensures start <= end ==>
      && BucketCount(start, end, b, offsetMinutes) >= 1
      && starts == Starts(BucketStart(start, b, offsetMinutes),
                          Min(BucketCount(start, end, b, offsetMinutes), STARTS_HARD_CAP), Step(b))
  {
    starts := [];
    if end < start {
      return;
    }
    var step := Step(b);
    var last := BucketStart(end, b, offsetMinutes);
    var cursor := BucketStart(start, b, offsetMinutes);
    ghost var count := BucketCount(start, end, b, offsetMinutes);
    CountIsExact(start, end, b, offsetMinutes);
    while cursor <= last
      invariant |starts| <= count && |starts| <= STARTS_HARD_CAP - 1
      invariant cursor == BucketStart(start, b, offsetMinutes) + |starts| * step
      invariant starts == Starts(BucketStart(start, b, offsetMinutes), |starts|, step)
      decreases count - |starts|
    {
      starts := starts + [cursor];
      cursor := cursor + step;
      if |starts| >= STARTS_HARD_CAP {
        return;
      }
    }
    if |starts| < count {
      MultiplesApartOrEqual(|starts|, count - 1, step);
    }
  }

  lemma MultiplesApartOrEqual(i: int, j: int, step: int)
    requires step > 0 && i <= j
    ensures i * step <= j * step
  {
    if i < j {
      MultiplesApart(i, j, step);
    }
  }

  lemma CountIsExact(start: int, end: int, b: Bucket, offsetMinutes: int)
    requires start <= end
    ensures BucketCount(start, end, b, offsetMinutes) >= 1
    ensures BucketStart(end, b, offsetMinutes) ==
      BucketStart(start, b, offsetMinutes) + (BucketCount(start, end, b, offsetMinutes) - 1) * Step(b)
  {
    var k := BucketGrid(start, end, b, offsetMinutes);
    BucketSpan(start, b, offsetMinutes);
    BucketSpan(end, b, offsetMinutes);
    if k < 0 {
      MultiplesApart(k, 0, Step(b));
      assert false;
    }
    assert k * Step(b) / Step(b) == k;
  }

  /** A window the API accepts touches at most 193 hours or 401 days, so the cap never cuts. */
  lemma AcceptedWindowsFit(start: int, end: int, b: Bucket, offsetMinutes: int)
    requires AcceptedWindow(start, end, b)
    ensures 1 <= BucketCount(start, end, b, offsetMinutes) <= (if b == Hourly then 193 else 401) < STARTS_HARD_CAP
  {
    CountIsExact(start, end, b, offsetMinutes);
    BucketSpan(start, b, offsetMinutes);
    BucketSpan(end, b, offsetMinutes);
    var limit := if b == Hourly then 192 else 400;
    var k := BucketCount(start, end, b, offsetMinutes) - 1;
    if k > limit {
      MultiplesApart(limit, k, Step(b));
      assert false;
    }
  }

  /** Both bounds are reached; the largest accepted series has 401 day buckets, not 400. */
  lemma BoundsAreReached()
    ensures AcceptedWindow(1, 1 + HOUR_MAX_SPAN, Hourly) && BucketCount(1, 1 + HOUR_MAX_SPAN, Hourly, 0) == 193
    ensures AcceptedWindow(1, 1 + DAY_MAX_SPAN, Daily) && BucketCount(1, 1 + DAY_MAX_SPAN, Daily, 0) == 401
  {
  }

  /** Exactly these requests are served, and each of them in full: the walk over its buckets
      is never cut. Leaving the choice open is refused only above the widest window. */
  method ParseSeriesParams(start: int, end: int, bucket: string, offsetMinutes: int) returns (w: Option<Window>)
    ensures w.Some? <==>
      && start < end <= start + DAY_MAX_SPAN && -720 <= offsetMinutes <= 840
      && bucket in {"", "hour", "day"} && (bucket == "hour" ==> end <= start + HOUR_MAX_SPAN)
    ensures w.Some? ==>
      && w.value.start == start && w.value.end == end && w.value.offsetMinutes == offsetMinutes
      && AcceptedWindow(start, end, w.value.bucket)
      && 1 <= BucketCount(start, end, w.value.bucket, offsetMinutes) < STARTS_HARD_CAP
    ensures w.Some? ==> (w.value.bucket == Hourly <==> bucket == "hour" || (bucket == "" && end - start <= HOUR_DERIVATION_SPAN))
  {
    if end <= start {
      return None;
    }
    if offsetMinutes < OFFSET_MIN || offsetMinutes > OFFSET_MAX {
      return None;
    }
    var span := end - start;
    var parsed := ParseBucket(bucket, span);
    if parsed.None? || span > MaxSpan(parsed.value) {
      return None;
    }
    AcceptedWindowsFit(start, end, parsed.value, offsetMinutes);
    return Some(Window(start, end, parsed.value, offsetMinutes));
  }

  /** The bucket depends on the second alone. */
  lemma BucketOfSecond(at: int, other: int, b: Bucket, offsetMinutes: int)
    requires at / SECOND == other / SECOND
    ensures BucketStart(at, b, offsetMinutes) == BucketStart(other, b, offsetMinutes)
  {
    hide BucketStart;
    SqlAgreesWithGo(at, b, offsetMinutes);
    SqlAgreesWithGo(other, b, offsetMinutes);
  }

  /** Every instant of the window, to the second, has its bucket in the walk, at exactly one
      place. */
  lemma BucketOccursOnce(start: int, end: int, b: Bucket, offsetMinutes: int, at: int) returns (i: nat)
    requires start <= end && start / SECOND <= at / SECOND <= end / SECOND
    ensures i < BucketCount(start, end, b, offsetMinutes)
    ensures var starts := Starts(BucketStart(start, b, offsetMinutes), BucketCount(start, end, b, offsetMinutes), Step(b));
      && starts[i] == BucketStart(at, b, offsetMinutes)
      && forall j :: 0 <= j < |starts| && starts[j] == BucketStart(at, b, offsetMinutes) ==> j == i
  {
    var inside := if at < start then start else if end < at then end else at;
    BucketOfSecond(at, inside, b, offsetMinutes);
    var first, step := BucketStart(start, b, offsetMinutes), Step(b);
    var count := BucketCount(start, end, b, offsetMinutes);
    CountIsExact(start, end, b, offsetMinutes);
    CountIsExact(start, inside, b, offsetMinutes);
    CountIsExact(inside, end, b, offsetMinutes);
    var before, after := BucketCount(start, inside, b, offsetMinutes) - 1, BucketCount(inside, end, b, offsetMinutes) - 1;
    assert before * step + after * step == (count - 1) * step;
    SumOfMultiples(before, after, count - 1, step);
    i := before;
    forall j | 0 <= j < count && first + j * step == BucketStart(at, b, offsetMinutes)
      ensures j == i
    {
      SameMultiple(i, j, step);
    }
  }

  lemma SumOfMultiples(a: int, b: int, c: int, step: int)
    requires step > 0 && a * step + b * step == c * step
    ensures a + b == c
  {
    assert (a + b) * step == c * step;
    SameMultiple(a + b, c, step);
  }

  // ----- Zero fill -----

  datatype Event = Event(at: int, count: nat)

  /** What the database returns: the counts grouped by key. */
  function Grouped(events: seq<Event>, b: Bucket, offsetMinutes: int): map<int, nat> {
    if events == [] then map[]
    else
      var rest, last := Grouped(events[..|events| - 1], b, offsetMinutes), events[|events| - 1];
      var key := SqlKey(last.at, b, offsetMinutes);
      rest[key := CountAt(rest, key) + last.count]
  }

  function CountAt(present: map<int, nat>, key: int): nat {
    if key in present then present[key] else 0
  }

  function Total(events: seq<Event>): nat {
    if events == [] then 0 else Total(events[..|events| - 1]) + events[|events| - 1].count
  }

  function SumOf(points: seq<nat>): nat {
    if points == [] then 0 else SumOf(points[..|points| - 1]) + points[|points| - 1]
  }

  function Filled(starts: seq<int>, present: map<int, nat>): seq<nat> {
    seq(|starts|, i requires 0 <= i < |starts| => CountAt(present, BucketKey(starts[i])))
  }

  /** The counts of the events from `start` on, for `span` nanoseconds. */
  function CountWithin(events: seq<Event>, start: int, span: int): nat {
    if events == [] then 0
    else
      var last := events[|events| - 1];
      CountWithin(events[..|events| - 1], start, span) + if start <= last.at < start + span then last.count else 0
  }

  lemma KeyOfBucket(s: int, at: int, b: Bucket, offsetMinutes: int)
    requires s == BucketStart(s, b, offsetMinutes)
    ensures SqlKey(at, b, offsetMinutes) == BucketKey(s) <==> s <= at < s + Step(b)
  {
    hide BucketStart, SqlKey;
    SqlAgreesWithGo(s, b, offsetMinutes);
    SqlAgreesWithGo(at, b, offsetMinutes);
    BucketSpan(at, b, offsetMinutes);
    var k := BucketGrid(s, at, b, offsetMinutes);
    if s <= at < s + Step(b) {
      SameMultiple(k, 0, Step(b));
    }
  }

  /** The point of a bucket is the count of the events within its hour or its day. */
  lemma {:induction false} PointCountsItsBucket(events: seq<Event>, b: Bucket, offsetMinutes: int, s: int)
    requires s == BucketStart(s, b, offsetMinutes)
    ensures CountAt(Grouped(events, b, offsetMinutes), BucketKey(s)) ==
      CountWithin(events, s, if b == Hourly then 3_600_000_000_000 else 86_400_000_000_000)
  {
    if events != [] {
      var init, last := events[..|events| - 1], events[|events| - 1];
      PointCountsItsBucket(init, b, offsetMinutes, s);
      KeyOfBucket(s, last.at, b, offsetMinutes);
    }
  }

  method ZeroFillSeries(start: int, end: int, b: Bucket, offsetMinutes: int, present: map<int, nat>) returns (points: seq<nat>)
    ensures end < start ==> points == []
    ensures start <= end ==>
      && BucketCount(start, end, b, offsetMinutes) >= 1
      && points == Filled(Starts(BucketStart(start, b, offsetMinutes),
                                 Min(BucketCount(start, end, b, offsetMinutes), STARTS_HARD_CAP), Step(b)), present)
  {
    var starts := BucketStarts(start, end, b, offsetMinutes);
    points := [];
    for i := 0 to |starts|
      invariant points == Filled(starts[..i], present)
    {
      var key := BucketKey(starts[i]);
      points := points + [if key in present then present[key] else 0];
    }
    assert starts[..|starts|] == starts;
  }

  lemma {:induction false} RaisedAtOne(a: seq<nat>, b: seq<nat>, i: nat, increase: nat)
    requires i < |a| == |b| && b[i] == a[i] + increase
    requires forall j :: 0 <= j < |a| && j != i ==> a[j] == b[j]
    ensures SumOf(b) == SumOf(a) + increase
  {
    var n := |a| - 1;
    if i == n {
      assert a[..n] == b[..n];
    } else {
      RaisedAtOne(a[..n], b[..n], i, increase);
    }
  }

  lemma {:induction false} SumOfZeros(points: seq<nat>)
    requires forall i :: 0 <= i < |points| ==> points[i] == 0
    ensures SumOf(points) == 0
  {
    if points != [] {
      SumOfZeros(points[..|points| - 1]);
    }
  }

  /** The points of a series add up to the total of the events of its window, which the
      query cuts no coarser than by whole seconds. */
  lemma {:induction false} ZeroFillConserves(start: int, end: int, b: Bucket, offsetMinutes: int, events: seq<Event>)
    requires AcceptedWindow(start, end, b) && forall e <- events :: start / SECOND <= e.at / SECOND <= end / SECOND
    ensures BucketCount(start, end, b, offsetMinutes) >= 1
    ensures SumOf(Filled(Starts(BucketStart(start, b, offsetMinutes),
                                Min(BucketCount(start, end, b, offsetMinutes), STARTS_HARD_CAP), Step(b)),
                         Grouped(events, b, offsetMinutes))) == Total(events)
  {
    AcceptedWindowsFit(start, end, b, offsetMinutes);
    var starts := Starts(BucketStart(start, b, offsetMinutes), BucketCount(start, end, b, offsetMinutes), Step(b));
    var points := Filled(starts, Grouped(events, b, offsetMinutes));
    if events == [] {
      SumOfZeros(points);
    } else {
      var init, last := events[..|events| - 1], events[|events| - 1];
      ZeroFillConserves(start, end, b, offsetMinutes, init);
      var i := BucketOccursOnce(start, end, b, offsetMinutes, last.at);
      SqlAgreesWithGo(last.at, b, offsetMinutes);
      forall j | 0 <= j < |starts| && j != i
        ensures BucketKey(starts[j]) != SqlKey(last.at, b, offsetMinutes)
      {
        WholeSeconds(start, b, offsetMinutes, j);
      }
      RaisedAtOne(Filled(starts, Grouped(init, b, offsetMinutes)), points, i, last.count);
    }
  }

  /** Bucket starts are whole seconds, so distinct starts have distinct keys. */
  lemma WholeSeconds(start: int, b: Bucket, offsetMinutes: int, j: int)
    ensures var s := BucketStart(start, b, offsetMinutes) + j * Step(b); BucketKey(s) * SECOND == s
  {
    hide BucketStart, SqlKey;
    SqlAgreesWithGo(start, b, offsetMinutes);
    KeyOfWhole(SqlKey(start, b, offsetMinutes), j, if b == Daily then 86400 else 3600);
  }

  lemma KeyOfWhole(k: int, j: int, step: int)
    ensures var s := k * SECOND + j * (step * SECOND); s == (k + j * step) * SECOND && BucketKey(s) * SECOND == s
  {
    var whole := k + j * step;
    assert j * (step * SECOND) == j * step * SECOND;
    assert (whole * SECOND) / SECOND == whole;
  }
}
