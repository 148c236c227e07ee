/** The aggregation service around the Tumbler: its two goroutines' bodies, the validity of all they
    publish, and what a crash can and cannot do to the aggregates topic. */
module Aggregator {
  import opened Events
  import opened Windows
  import opened WindowThreads
  import opened WindowCode
  import opened IngestionCode

  /** What reaches the topic when publishing `out` in order, item `i` meeting `fate(i)`: a failure
      is logged and the rest goes on. */
  function Arrived(out: seq<WindowAggregate>, fate: nat -> Ingestion.Fate): seq<WindowAggregate> {
    if out == [] then []
    else
      var n := |out| - 1;
      var before := Arrived(out[..n], fate);
      if out[n].Validate().Some? || fate(n).Refused? then before else before + [out[n]]
  }

  class Aggregator {
    const tumbler: Tumbler
    const producer: Producer<WindowAggregate>

    ghost predicate Valid()
      reads this, tumbler, tumbler.buckets.Values
    {
      tumbler.Valid() && producer.invalid == ((a: WindowAggregate) => a.Validate().Some?)
    }

    constructor (size: int, lateness: int, producer: Producer<WindowAggregate>)
      requires producer.invalid == ((a: WindowAggregate) => a.Validate().Some?)
      ensures Valid() && tumbler.View() == TState(map[], 0) && tumbler.c == Spec(size, lateness)
      ensures this.producer == producer && fresh(tumbler)
    {
      this.producer := producer;
      tumbler := new Tumbler(size, lateness);
    }

    /** The consumer's handler: never an error, a late reading is only counted. */
    method Handle(r: SensorReading, now: Instant) returns (err: bool)
      requires Valid()
      modifies tumbler, tumbler.buckets.Values
      ensures Valid() && tumbler.View() == AddTo(tumbler.c, old(tumbler.View()), r, now) && !err
    {
      var ok := tumbler.Add(r, now);
      return false;
    }

    /** One tick of the flusher. */
    method Flush(now: Instant, order: seq<int>, fate: nat -> Ingestion.Fate)
      requires Valid() && Visits(order, tumbler.buckets)
      modifies tumbler, producer
      ensures Valid() && tumbler.View() == Kept(tumbler.c, old(tumbler.View()), now)
      ensures Counted(old(tumbler.View()).buckets)
      ensures forall k :: k in order ==> k in old(tumbler.View()).buckets
      ensures producer.log == old(producer.log) + Arrived(EmitAll(tumbler.c, old(tumbler.View()).buckets, order, now), fate)
    {
      hide WindowAggregate.Validate, EmitAll, Kept;
      var out := tumbler.Closed(now, order);
      ghost var after := tumbler.View();
      for i := 0 to |out|
        invariant Valid() && tumbler.View() == after
        invariant producer.log == old(producer.log) + Arrived(out[..i], fate)
      {
        assert out[..i + 1][..i] == out[..i];
        var err := producer.Publish(out[i], fate(i));
      }
      assert out[..|out|] == out;
    }
  }

  /** ONE REFUSAL COSTS ONE AGGREGATE. Item `i` of a tick arrives if and only if it is valid and not refused, whatever
      befell the others, and those that arrive keep their order; `at` are their places. */
  lemma {:induction false} EachOnItsOwn(out: seq<WindowAggregate>, fate: nat -> Ingestion.Fate) returns (at: seq<nat>)
    ensures |at| == |Arrived(out, fate)| && forall j :: 0 <= j < |at| ==> at[j] < |out| && Arrived(out, fate)[j] == out[at[j]]
    ensures forall i: nat :: i in at <==> i < |out| && out[i].Validate().None? && !fate(i).Refused?
    ensures forall j, k :: 0 <= j < k < |at| ==> at[j] < at[k]
  {
    hide WindowAggregate.Validate;
    at := [];
    if out != [] {
      var n := |out| - 1;
      at := EachOnItsOwn(out[..n], fate);
      assert forall i: nat :: i < n ==> out[..n][i] == out[i];
      if out[n].Validate().None? && !fate(n).Refused? {
        at := at + [n];
      }
    }
  }

  // ----- Every published aggregate is valid -----

  ghost predicate Sane(m: map<int, Agg>) {
    forall k :: k in m ==> m[k].count > 0 && m[k].min <= m[k].max
  }

  lemma {:induction false} SaneAlways(c: Spec, ls: seq<Label>)
    ensures var s := Interleave(c, ls);
            Sane(s.state.buckets) && forall j :: 0 <= j < |s.harvests| ==> Sane(s.harvests[j].windows)
  {
    if ls != [] {
      SaneAlways(c, ls[..|ls| - 1]);
    }
  }

  /** THE FLUSHER'S PUBLISH NEVER REFUSES FOR CONTENT. In every interleaving of the two goroutines, with
      any clocks, every aggregate a flush returns passes its own check. */
  lemma {:induction false} FlushedIsValid(c: Spec, ls: seq<Label>, order: seq<int>, now: Instant)
    requires c.size > 0 && Visits(order, Interleave(c, ls).state.buckets)
    ensures Counted(Interleave(c, ls).state.buckets)
    ensures forall a :: a in EmitAll(c, Interleave(c, ls).state.buckets, order, now) ==> a.Validate() == None
  {
    SaneAlways(c, ls);
    var m := Interleave(c, ls).state.buckets;
    var out := EmitAll(c, m, order, now);
    forall a | a in out ensures a.Validate() == None {
      var x :| 0 <= x < |out| && out[x] == a;
      var i := EmitAllOnly(c, m, order, now, x);
    }
  }

  /** So a tick delivers all of what it harvested that the infrastructure accepts, in order. */
  lemma {:induction false} AllArrive(out: seq<WindowAggregate>, fate: nat -> Ingestion.Fate)
    requires forall i :: 0 <= i < |out| ==> out[i].Validate() == None && !fate(i).Refused?
    ensures Arrived(out, fate) == out
  {
    hide WindowAggregate.Validate;
    if out != [] {
      var n := |out| - 1;
      AllArrive(out[..n], fate);
      assert out == out[..n] + [out[n]];
    }
  }

  // ----- Crashes -----

  ghost predicate CheckedOnTime(c: Spec, ls: seq<Label>, r: SensorReading) {
    exists m :: 0 <= m < |ls| && ls[m].Check? && ls[m].r == r && OnTime(c, r, ls[m].now)
  }

  lemma CheckedStep(c: Spec, s: Shared, l: Label, r: SensorReading)
    ensures r in Next(c, s, l).stored ==> r in s.stored || r in s.pending.Values
    ensures r in Next(c, s, l).pending.Values ==>
              r in s.pending.Values || (l.Check? && l.r == r && OnTime(c, r, l.now))
  {
    hide OnTime, Kept, Harvested;
  }

  /** Whatever is stored or waiting passed its check. */
  lemma {:induction false} StoredWasChecked(c: Spec, ls: seq<Label>, r: SensorReading)
    requires r in Interleave(c, ls).stored || r in Interleave(c, ls).pending.Values
    ensures CheckedOnTime(c, ls, r)
  {
    hide Next, OnTime;
    var n := |ls| - 1;
    var s, l := Interleave(c, ls[..n]), ls[n];
    CheckedStep(c, s, l, r);
    if r in s.stored || r in s.pending.Values {
      StoredWasChecked(c, ls[..n], r);
      var m :| 0 <= m < n && ls[..n][m].Check? && ls[..n][m].r == r && OnTime(c, r, ls[..n][m].now);
      assert ls[m] == ls[..n][m];
    } else {
      assert ls[n].Check? && ls[n].r == r && OnTime(c, r, ls[n].now);
    }
  }

  /** What is open or emitted has a stored reading, and nothing is emitted before its deadline. */
  lemma {:induction false} EmittedHasReading(c: Spec, ls: seq<Label>, j: nat, k: int)
    requires j < |Interleave(c, ls).harvests| && k in Interleave(c, ls).harvests[j].windows
    ensures WindowOf(c, Interleave(c, ls).stored, k) != []
  {
    hide Interleave, WindowOf, Merge, Summarizes;
    NothingLostPerWindow(c, ls, k);
    EmittedOf(Interleave(c, ls).harvests, j, k);
    MergeKeeps(Emitted(Interleave(c, ls).harvests, k), Lookup(Interleave(c, ls).state.buckets, k));
    if a: Agg :| Merge(Emitted(Interleave(c, ls).harvests, k), Lookup(Interleave(c, ls).state.buckets, k)) == Some(a) {
      SummaryIsNonempty(a, WindowOf(c, Interleave(c, ls).stored, k));
    }
  }

  lemma MergeKeeps(a: Option<Agg>, b: Option<Agg>)
    ensures a.Some? || b.Some? ==> Merge(a, b).Some?
  {
  }

  lemma SummaryIsNonempty(a: Agg, xs: seq<real>)
    requires Summarizes(a, xs)
    ensures xs != []
  {
  }

  lemma {:induction false} EmittedOf(hs: seq<Harvest>, j: nat, k: int)
    requires j < |hs| && k in hs[j].windows
    ensures Emitted(hs, k).Some?
  {
    if j < |hs| - 1 {
      EmittedOf(hs[..|hs| - 1], j, k);
    }
  }

  lemma {:induction false} HarvestIsDue(c: Spec, ls: seq<Label>, i: nat, k: int)
    requires i < |Interleave(c, ls).harvests| && k in Interleave(c, ls).harvests[i].windows
    ensures Deadline(c, k) <= Interleave(c, ls).harvests[i].now
  {
    hide Deadline;
    if i < |Interleave(c, ls[..|ls| - 1]).harvests| {
      HarvestIsDue(c, ls[..|ls| - 1], i, k);
    }
  }

  /** AGGREGATES ARE AT MOST ONCE. A crash loses the open windows; whatever is redelivered to a later process
      and however its threads interleave, as long as its checks are not before the flush, no window the
      dead process emitted is ever emitted again. */
  lemma {:induction false} EmittedStaysEmitted(c: Spec, before: seq<Label>, after: seq<Label>, i: nat, j: nat, k: int)
    requires WholeSeconds(c)
    requires i < |Interleave(c, before).harvests| && k in Interleave(c, before).harvests[i].windows
    requires forall n :: 0 <= n < |after| && after[n].Check? ==> Interleave(c, before).harvests[i].now <= after[n].now
    requires j < |Interleave(c, after).harvests|
    ensures k !in Interleave(c, after).harvests[j].windows
  {
    hide Interleave, Deadline, OnTime, WindowOf;
    if k in Interleave(c, after).harvests[j].windows {
      HarvestIsDue(c, before, i, k);
      EmittedHasReading(c, after, j, k);
      var stored := Interleave(c, after).stored;
      WindowHasReading(c, stored, k);
      var x :| 0 <= x < |stored| && KeyOf(c, stored[x]) == k;
      StoredWasChecked(c, after, stored[x]);
      var n :| 0 <= n < |after| && after[n].Check? && after[n].r == stored[x] && OnTime(c, stored[x], after[n].now);
      LateAfterDeadline(c, stored[x], after[n].now);
      assert false;
    }
  }
}
