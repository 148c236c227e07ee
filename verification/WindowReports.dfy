/** What the aggregates that leave the service say of the readings that went in. */
module WindowReports {
  import opened Events
  import opened Rounding
  import opened Windows
  import opened WindowThreads
  import opened WindowRaces
  import opened WindowAverages
  import opened WindowCode

  /** The record covers one tumbling window and reports the readings whose time lies in it. */
  ghost predicate Covers(c: Spec, w: WindowAggregate, rs: seq<SensorReading>) {
    && c.size > 0 && w.windowStart % c.size == 0 && w.windowEnd == w.windowStart + c.size
    && Reports(w, ReadingsIn(rs, w.windowStart, w.windowEnd))
  }

  lemma {:induction false} SummaryCovers(c: Spec, rs: seq<SensorReading>, k: int, a: Agg)
    requires WholeSeconds(c) && Summarizes(a, WindowOf(c, rs, k))
    ensures Covers(c, Emit(c, k, a), rs)
  {
    hide KeyOf, WindowOf, Emit, Summarizes;
    SummarizesSome(a, WindowOf(c, rs, k));
    WindowHasReading(c, rs, k);
    var i :| 0 <= i < |rs| && KeyOf(c, rs[i]) == k;
    EmittedBoundsAreTheWindow(c, a, rs[i], rs[i]);
    WindowByTimes(c, rs, a, rs[i]);
    EmittedReports(c, k, a, WindowOf(c, rs, k));
  }

  lemma SummarizesSome(a: Agg, xs: seq<real>)
    requires Summarizes(a, xs)
    ensures a.count > 0 && xs != []
  {
  }

  /** EVERY EMITTED RECORD REPORTS ITS READINGS. After a race-free interleaving each record that any flush made is
      the number, the extremes and the rounded mean of exactly the stored readings between its bounds. */
  lemma {:induction false} EmittedCovers(c: Spec, ls: seq<Label>, j: nat, k: int)
    requires WholeSeconds(c) && Clocked(ls) && RaceFree(c, ls)
    requires j < |Interleave(c, ls).harvests| && k in Interleave(c, ls).harvests[j].windows
    ensures Interleave(c, ls).harvests[j].windows[k].count > 0
    ensures Covers(c, Emit(c, k, Interleave(c, ls).harvests[j].windows[k]), Interleave(c, ls).stored)
  {
    hide Interleave, WindowOf, Emit, Summarizes, Covers;
    StreamingIsBatch(c, ls, k);
    var a := Interleave(c, ls).harvests[j].windows[k];
    SummarizesSome(a, WindowOf(c, Interleave(c, ls).stored, k));
    SummaryCovers(c, Interleave(c, ls).stored, k, a);
  }

  /** EVERY READING IS REPORTED ONCE. With no window left open, each stored reading lies between the bounds of exactly
      one emitted record. */
  lemma {:induction false} ReportedOnce(c: Spec, ls: seq<Label>, r: SensorReading) returns (j: nat, k: int)
    requires WholeSeconds(c) && Clocked(ls) && RaceFree(c, ls)
    requires Interleave(c, ls).state.buckets == map[] && r in Interleave(c, ls).stored
    ensures var hs := Interleave(c, ls).harvests;
            && j < |hs| && k in hs[j].windows
            && (forall i, x :: 0 <= i < |hs| && x in hs[i].windows ==>
                  hs[i].windows[x].count > 0
                  && var w := Emit(c, x, hs[i].windows[x]);
                  (w.windowStart <= r.time < w.windowEnd <==> i == j && x == k))
  {
    hide Interleave, WindowOf, Emit, KeyOf, RaceFree;
    var s := Interleave(c, ls);
    k := KeyOf(c, r);
    StreamingIsBatch(c, ls, k);
    InItsWindow(c, s.stored, r);
    assert Flushed(s, k);
    j :| 0 <= j < |s.harvests| && k in s.harvests[j].windows;
    forall i, x | 0 <= i < |s.harvests| && x in s.harvests[i].windows
      ensures s.harvests[i].windows[x].count > 0
      ensures var w := Emit(c, x, s.harvests[i].windows[x]);
              w.windowStart <= r.time < w.windowEnd <==> i == j && x == k
    {
      var first := EmittedFor(c, ls, i, x);
      EmittedBoundsAreTheWindow(c, s.harvests[i].windows[x], first, r);
    }
  }

  lemma {:induction false} InItsWindow(c: Spec, rs: seq<SensorReading>, r: SensorReading)
    requires r in rs
    ensures WindowOf(c, rs, KeyOf(c, r)) != []
  {
    hide KeyOf;
    if rs[|rs| - 1] != r {
      InItsWindow(c, rs[..|rs| - 1], r);
    }
  }

  /** WHAT A FLUSH RETURNS. Each record covers a window that is due and reports the readings stored for it; with
      one-decimal readings its average lies between its extremes. */
  lemma {:induction false} FlushReports(c: Spec, ls: seq<Label>, order: seq<int>, now: Instant, w: WindowAggregate)
    requires WholeSeconds(c) && Clocked(ls) && RaceFree(c, ls)
    requires Visits(order, Interleave(c, ls).state.buckets) && Counted(Interleave(c, ls).state.buckets)
    requires w in EmitAll(c, Interleave(c, ls).state.buckets, order, now)
    ensures Covers(c, w, Interleave(c, ls).stored) && w.windowEnd + c.lateness <= now
    ensures (forall r :: r in Interleave(c, ls).stored ==> Tenths(r.tempC)) ==> w.minTempC <= w.avgTempC <= w.maxTempC
  {
    hide Interleave, WindowOf, EmitAll, RaceFree, Tenths, Average;
    var s := Interleave(c, ls);
    var out := EmitAll(c, s.state.buckets, order, now);
    var x :| 0 <= x < |out| && out[x] == w;
    var i := EmitAllOnly(c, s.state.buckets, order, now, x);
    var k := order[i];
    StreamingIsBatch(c, ls, k);
    SummaryCovers(c, s.stored, k, s.state.buckets[k]);
    if forall r :: r in s.stored ==> Tenths(r.tempC) {
      OneDecimalWindow(c, s.stored, k);
      AverageOfOneDecimalReadings(c, k, s.state.buckets[k], WindowOf(c, s.stored, k));
    }
  }

  lemma {:induction false} OneDecimalWindow(c: Spec, rs: seq<SensorReading>, k: int)
    requires forall r :: r in rs ==> Tenths(r.tempC)
    ensures forall i :: 0 <= i < |WindowOf(c, rs, k)| ==> Tenths(WindowOf(c, rs, k)[i])
  {
    hide KeyOf, Tenths;
    if rs != [] {
      var r := rs[|rs| - 1];
      assert r in rs;
      OneDecimalWindow(c, rs[..|rs| - 1], k);
    }
  }
}
