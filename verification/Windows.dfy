/** Tumbling windows over event time: the arithmetic of window keys, the streaming aggregator as a
    function on values, and the batch group-by it is measured against. */
module Windows {
  import opened Events
  import opened Rounding

  /** Seconds from Go's zero time to the Unix epoch. */
  const ZERO_TO_EPOCH: int := 62_135_596_800

  /** The epoch is 1970: 1969 years since the year 1, each of 365 days or, in a leap year, 366. */
  lemma EpochIs1970()
    ensures ZERO_TO_EPOCH == (1969 * 365 + 1969 / 4 - 1969 / 100 + 1969 / 400) * 86_400
  {
  }

  /** Rounds down to a multiple of `d` since the zero time. */
  function Truncate(t: Instant, d: int): Instant {
    if d <= 0 then t else t - t % d
  }

  function Unix(t: Instant): int {
    t / SECOND - ZERO_TO_EPOCH
  }

  function FromUnix(k: int): Instant {
    (k + ZERO_TO_EPOCH) * SECOND
  }

  /** The parameters of a Tumbler. */
  datatype Spec = Spec(size: int, lateness: int)

  /** Windows that a key in whole seconds can name. */
  predicate WholeSeconds(c: Spec) {
    c.size > 0 && c.size % SECOND == 0
  }

  function KeyOf(c: Spec, r: SensorReading): int {
    Unix(Truncate(r.time, c.size))
  }

  /** When the window named by `k` closes: its end plus the grace period. */
  function Deadline(c: Spec, k: int): Instant {
    FromUnix(k) + c.size + c.lateness
  }

  lemma WholeStart(c: Spec, t: Instant)
    requires WholeSeconds(c)
    ensures Truncate(t, c.size) % SECOND == 0
    ensures FromUnix(Unix(Truncate(t, c.size))) == Truncate(t, c.size)
  {
    var m := c.size / SECOND;
    var q := t / c.size;
    assert c.size == m * SECOND;
    assert t - t % c.size == q * c.size;
    MultipleOfSecond(q, m);
  }

  lemma MultipleOfSecond(q: int, m: int)
    ensures (q * (m * SECOND)) % SECOND == 0 && q * (m * SECOND) / SECOND * SECOND == q * (m * SECOND)
  {
    assert q * (m * SECOND) == (q * m) * SECOND;
  }

  /** THE KEY ROUND TRIP. Turning a window start into its key and back is the identity on every
      instant exactly for positive sizes of a whole number of seconds. */
  lemma KeyRoundTrip(size: int)
    ensures (forall t :: FromUnix(Unix(Truncate(t, size))) == Truncate(t, size)) <==> WholeSeconds(Spec(size, 0))
  {
    if WholeSeconds(Spec(size, 0)) {
      forall t ensures FromUnix(Unix(Truncate(t, size))) == Truncate(t, size) {
        WholeStart(Spec(size, 0), t);
      }
    } else if size <= 0 {
      assert Truncate(1, size) == 1;
    } else {
      assert Truncate(size, size) == size;
    }
  }

  lemma StartsApart(size: int, t: Instant, u: Instant)
    requires size >= SECOND && Truncate(t, size) < Truncate(u, size)
    ensures Truncate(t, size) + SECOND <= Truncate(u, size)
  {
    var a, b := t / size, u / size;
    assert t == a * size + t % size && u == b * size + u % size;
    assert (b - a) * size == b * size - a * size;
    PositiveMultiple(b - a, size);
  }

  lemma PositiveMultiple(d: int, size: int)
    requires size > 0 && d * size > 0
    ensures d * size >= size
  {
    assert d >= 1;
    assert (d - 1) * size >= 0;
  }

  /** WINDOWS KEEP APART. Readings of different windows get different keys exactly when windows
      last at least a second; below that the aggregator would merge them. */
  lemma WindowsKeepApart(size: int)
    ensures (forall t, u :: Truncate(t, size) != Truncate(u, size) ==> Unix(Truncate(t, size)) != Unix(Truncate(u, size)))
       <==> size >= SECOND
  {
    if size >= SECOND {
      forall t, u | Truncate(t, size) != Truncate(u, size) ensures Unix(Truncate(t, size)) != Unix(Truncate(u, size)) {
        if Truncate(t, size) < Truncate(u, size) { StartsApart(size, t, u); } else { StartsApart(size, u, t); }
      }
    } else {
      var u := if size <= 0 then 1 else size;
      assert Truncate(0, size) == 0 && Truncate(u, size) == u;
    }
  }

  /** An accepted reading lies in the half-open window its key names. */
  lemma ReadingInWindow(c: Spec, r: SensorReading)
    requires WholeSeconds(c)
    ensures FromUnix(KeyOf(c, r)) <= r.time < FromUnix(KeyOf(c, r)) + c.size
  {
    WholeStart(c, r.time);
  }

  /** One window's readings so far. */
  datatype Agg = Agg(sum: real, count: nat, min: real, max: real)

  function Push(b: Option<Agg>, x: real): Agg {
    match b
    case None => Agg(x, 1, x, x)
    case Some(a) => Agg(a.sum + x, a.count + 1, if x < a.min then x else a.min, if x > a.max then x else a.max)
  }

  datatype TState = TState(buckets: map<int, Agg>, late: nat)

  function Lookup(m: map<int, Agg>, k: int): Option<Agg> {
    if k in m then Some(m[k]) else None
  }

  /** Whether a reading still finds its window open at `now`. */
  predicate OnTime(c: Spec, r: SensorReading, now: Instant) {
    now < Truncate(r.time, c.size) + c.size + c.lateness
  }

  /** The tumbling windows of positive size start at the multiples of the size since the zero time; `t` falls into
      the one that starts at `start`. */
  predicate Spans(c: Spec, start: Instant, t: Instant) {
    c.size > 0 && start % c.size == 0 && start <= t < start + c.size
  }

  /** OPEN FOR SIZE PLUS GRACE. A reading is on time until the end of its window plus the grace period, so
      always for the grace period after its own time; without a positive size its window starts with it. */
  lemma OnTimeUntilGrace(c: Spec, r: SensorReading, start: Instant, now: Instant)
    requires if c.size > 0 then Spans(c, start, r.time) else start == r.time
    ensures OnTime(c, r, now) <==> now < start + c.size + c.lateness
    ensures c.size > 0 && now <= r.time + c.lateness ==> OnTime(c, r, now)
  {
    if c.size > 0 {
      OneStart(c, Truncate(r.time, c.size), start, r.time);
    }
  }

  lemma TruncateSpans(c: Spec, t: Instant)
    requires c.size > 0
    ensures Spans(c, Truncate(t, c.size), t)
  {
    var q := t / c.size;
    assert t - t % c.size == q * c.size;
    MultipleIsWhole(q, c.size);
  }

  lemma MultipleIsWhole(q: int, size: int)
    requires size > 0
    ensures (q * size) % size == 0
  {
    var m, rest := q * size / size, (q * size) % size;
    assert q * size == m * size + rest;
    assert (q - m) * size == rest;
    if q - m > 0 { PositiveMultiple(q - m, size); }
  }

  lemma OneStart(c: Spec, a: Instant, b: Instant, t: Instant)
    requires Spans(c, b, t) && a == Truncate(t, c.size)
    ensures a == b
  {
    TruncateSpans(c, t);
    var p, q := a / c.size, b / c.size;
    assert a == p * c.size && b == q * c.size;
    SameMultiple(p, q, c.size);
  }

  /** Put a reading in its bucket. */
  function Store(c: Spec, s: TState, r: SensorReading): TState {
    s.(buckets := s.buckets[KeyOf(c, r) := Push(Lookup(s.buckets, KeyOf(c, r)), r.tempC)])
  }

  function AddTo(c: Spec, s: TState, r: SensorReading, now: Instant): TState {
    if OnTime(c, r, now) then Store(c, s, r) else s.(late := s.late + 1)
  }

  /** What a flush at `now` harvests, and what it leaves. */
  function Harvested(c: Spec, s: TState, now: Instant): map<int, Agg> {
    map k | k in s.buckets && Deadline(c, k) <= now :: s.buckets[k]
  }

  function Kept(c: Spec, s: TState, now: Instant): TState {
    s.(buckets := map k | k in s.buckets && now < Deadline(c, k) :: s.buckets[k])
  }

  function Average(sum: real, count: nat): real
    requires count > 0
  {
    Round(sum / count as real * 100.0) as real / 100.0
  }

  function Emit(c: Spec, k: int, a: Agg): WindowAggregate
    requires a.count > 0
  {
    WindowAggregate("national", FromUnix(k), FromUnix(k) + c.size, Average(a.sum, a.count), a.min, a.max, a.count)
  }

  /** A reading is accepted exactly when a flush at the same instant would leave its window open. */
  lemma AcceptedIffWindowOpen(c: Spec, s: TState, r: SensorReading, now: Instant)
    requires WholeSeconds(c)
    ensures OnTime(c, r, now) <==> KeyOf(c, r) in Kept(c, Store(c, s, r), now).buckets
  {
    WholeStart(c, r.time);
  }

  /** The record of a window starts at the second its key names, lasts the size, and its end plus the grace period is
      when it is harvested and no sooner, and, with faithful keys, from when on its readings are late. */
  lemma HarvestedAfterGrace(c: Spec, s: TState, k: int, now: Instant)
    requires k in s.buckets && s.buckets[k].count > 0
    ensures var w := Emit(c, k, s.buckets[k]);
            && w.windowStart % SECOND == 0 && Unix(w.windowStart) == k && w.windowEnd == w.windowStart + c.size
            && (k in Harvested(c, s, now) <==> w.windowEnd + c.lateness <= now)
            && (k in Kept(c, s, now).buckets <==> now < w.windowEnd + c.lateness)
            && (WholeSeconds(c) ==>
                  forall r :: KeyOf(c, r) == k ==> (OnTime(c, r, now) <==> now < w.windowEnd + c.lateness))
  {
    if WholeSeconds(c) {
      forall r | KeyOf(c, r) == k ensures OnTime(c, r, now) <==> now < FromUnix(k) + c.size + c.lateness {
        WholeStart(c, r.time);
      }
    }
  }

  lemma LateAfterDeadline(c: Spec, r: SensorReading, now: Instant)
    requires WholeSeconds(c) && Deadline(c, KeyOf(c, r)) <= now
    ensures !OnTime(c, r, now)
  {
    WholeStart(c, r.time);
  }

  lemma SameMultiple(a: int, b: int, size: int)
    requires size > 0 && -size < b * size - a * size < size
    ensures a == b
  {
    assert (b - a) * size == b * size - a * size;
    if a < b { PositiveMultiple(b - a, size); }
    if b < a {
      assert (a - b) * size == a * size - b * size;
      PositiveMultiple(a - b, size);
    }
  }

  /** The bounds an aggregate carries are those of its readings: a reading has the key of a window
      exactly when its time lies between the emitted start and end. */
  lemma EmittedBoundsAreTheWindow(c: Spec, a: Agg, first: SensorReading, r: SensorReading)
    requires WholeSeconds(c) && a.count > 0
    ensures var w := Emit(c, KeyOf(c, first), a);
            && (KeyOf(c, r) == KeyOf(c, first) <==> w.windowStart <= r.time < w.windowEnd)
            && Spans(c, w.windowStart, first.time) && w.windowEnd == w.windowStart + c.size
  {
    TruncateSpans(c, first.time);
    WholeStart(c, first.time);
    WholeStart(c, r.time);
    var p, q := first.time / c.size, r.time / c.size;
    assert first.time == p * c.size + first.time % c.size && r.time == q * c.size + r.time % c.size;
    if Truncate(first.time, c.size) <= r.time < Truncate(first.time, c.size) + c.size {
      SameMultiple(p, q, c.size);
    }
  }

  // ----- The batch group-by -----

  /** The temperatures of the readings that fall in window `k`, in order. */
  function WindowOf(c: Spec, rs: seq<SensorReading>, k: int): seq<real> {
    if rs == [] then []
    else
      var r := rs[|rs| - 1];
      var before := WindowOf(c, rs[..|rs| - 1], k);
      if KeyOf(c, r) == k then before + [r.tempC] else before
  }

  /** The temperatures of the readings whose time lies between two instants, in order. */
  function ReadingsIn(rs: seq<SensorReading>, from: Instant, to: Instant): seq<real> {
    if rs == [] then []
    else
      var r := rs[|rs| - 1];
      var before := ReadingsIn(rs[..|rs| - 1], from, to);
      if from <= r.time < to then before + [r.tempC] else before
  }

  /** Grouping by key is grouping by the emitted bounds. */
  lemma {:induction false} WindowByTimes(c: Spec, rs: seq<SensorReading>, a: Agg, first: SensorReading)
    requires WholeSeconds(c) && a.count > 0
    ensures var w := Emit(c, KeyOf(c, first), a);
            WindowOf(c, rs, KeyOf(c, first)) == ReadingsIn(rs, w.windowStart, w.windowEnd)
  {
    if rs != [] {
      hide KeyOf, Emit;
      WindowByTimes(c, rs[..|rs| - 1], a, first);
      EmittedBoundsAreTheWindow(c, a, first, rs[|rs| - 1]);
    }
  }

  lemma {:induction false} WindowHasReading(c: Spec, rs: seq<SensorReading>, k: int)
    requires WindowOf(c, rs, k) != []
    ensures exists i :: 0 <= i < |rs| && KeyOf(c, rs[i]) == k
  {
    if KeyOf(c, rs[|rs| - 1]) != k {
      WindowHasReading(c, rs[..|rs| - 1], k);
      var i :| 0 <= i < |rs| - 1 && KeyOf(c, rs[..|rs| - 1][i]) == k;
      assert KeyOf(c, rs[i]) == k;
    }
  }

  function Sum(xs: seq<real>): real {
    if xs == [] then 0.0 else Sum(xs[..|xs| - 1]) + xs[|xs| - 1]
  }

  /** `a` summarizes `xs`: their number and sum, and their true extremes. */
  ghost predicate Summarizes(a: Agg, xs: seq<real>) {
    && a.count == |xs| > 0
    && a.sum == Sum(xs)
    && (exists i :: 0 <= i < |xs| && xs[i] == a.min)
    && (exists i :: 0 <= i < |xs| && xs[i] == a.max)
    && (forall i :: 0 <= i < |xs| ==> a.min <= xs[i] <= a.max)
  }

  lemma PushSummarizes(b: Option<Agg>, xs: seq<real>, x: real)
    requires b.Some? ==> Summarizes(b.value, xs)
    requires b.None? ==> xs == []
    ensures Summarizes(Push(b, x), xs + [x])
  {
    var ys, a := xs + [x], Push(b, x);
    assert ys[..|xs|] == xs;
    assert ys[|xs|] == x;
    if b.Some? {
      var i :| 0 <= i < |xs| && xs[i] == b.value.min;
      var j :| 0 <= j < |xs| && xs[j] == b.value.max;
      assert ys[i] == b.value.min && ys[j] == b.value.max;
    }
  }

  /** ONE MORE READING. An add on time extends what its window's bucket summarizes by its temperature and touches nothing
      else; a late one is counted and touches nothing else. */
  lemma AddSummarizes(c: Spec, s: TState, r: SensorReading, now: Instant, xs: seq<real>)
    requires if KeyOf(c, r) in s.buckets then Summarizes(s.buckets[KeyOf(c, r)], xs) else xs == []
    ensures var t, k := AddTo(c, s, r, now), KeyOf(c, r);
            if OnTime(c, r, now) then
              && t.late == s.late && k in t.buckets && Summarizes(t.buckets[k], xs + [r.tempC])
              && (forall x :: x != k ==> (x in t.buckets <==> x in s.buckets))
              && (forall x :: x != k && x in s.buckets ==> t.buckets[x] == s.buckets[x])
            else t.late == s.late + 1 && t.buckets == s.buckets
  {
    hide KeyOf, OnTime, Push, Summarizes;
    PushSummarizes(Lookup(s.buckets, KeyOf(c, r)), xs, r.tempC);
  }

  lemma SummaryIsUnique(a: Agg, b: Agg, xs: seq<real>)
    requires Summarizes(a, xs) && Summarizes(b, xs)
    ensures a == b
  {
    var i :| 0 <= i < |xs| && xs[i] == a.min;
    var j :| 0 <= j < |xs| && xs[j] == b.min;
    var k :| 0 <= k < |xs| && xs[k] == a.max;
    var l :| 0 <= l < |xs| && xs[l] == b.max;
  }
}
