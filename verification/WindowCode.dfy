/** The Tumbler as it is written: a map of buckets updated in place, proved against module
    `Windows`. */
module WindowCode {
  import opened Events
  import opened Windows
  import opened WindowAverages

  /** A float64 that may still be an infinity. */
  datatype Extended = NegInf | Finite(v: real) | PosInf

  function Less(a: Extended, b: Extended): bool {
    match (a, b)
    case (Finite(x), Finite(y)) => x < y
    case (NegInf, _) => b != NegInf
    case (_, PosInf) => a != PosInf
    case _ => false
  }

  function MinOf(a: Extended, b: Extended): Extended {
    if Less(b, a) then b else a
  }

  function MaxOf(a: Extended, b: Extended): Extended {
    if Less(a, b) then b else a
  }

  class Bucket {
    var sum: real
    var count: nat
    var min: Extended
    var max: Extended

    constructor ()
      ensures sum == 0.0 && count == 0 && min == PosInf && max == NegInf
    {
      sum, count, min, max := 0.0, 0, PosInf, NegInf;
    }

    ghost predicate Filled()
      reads this
    {
      count > 0 && min.Finite? && max.Finite?
    }

    ghost predicate Fresh()
      reads this
    {
      sum == 0.0 && count == 0 && min == PosInf && max == NegInf
    }

    ghost function View(): Agg
      reads this
      requires Filled()
    {
      Agg(sum, count, min.v, max.v)
    }

    ghost function Held(): Option<Agg>
      reads this
      requires Filled() || Fresh()
    {
      if Fresh() then None else Some(View())
    }

    /** A fresh bucket takes its first reading as both extremes. */
    method Take(x: real)
      requires Filled() || Fresh()
      modifies this
      ensures Filled() && View() == Push(old(Held()), x)
    {
      sum := sum + x;
      count := count + 1;
      min := MinOf(min, Finite(x));
      max := MaxOf(max, Finite(x));
    }
  }

  /** `order` is a way to range over `m`: every key once. */
  ghost predicate Visits<T>(order: seq<int>, m: map<int, T>) {
    && (forall i :: 0 <= i < |order| ==> order[i] in m)
    && (forall k :: k in m ==> k in order)
    && (forall i, j :: 0 <= i < j < |order| ==> order[i] != order[j])
  }

  ghost predicate Counted(m: map<int, Agg>) {
    forall k :: k in m ==> m[k].count > 0
  }

  /** What a flush at `now` returns when it ranges over these keys in this order. */
  ghost function EmitAll(c: Spec, m: map<int, Agg>, order: seq<int>, now: Instant): seq<WindowAggregate>
    requires Counted(m) && forall i :: 0 <= i < |order| ==> order[i] in m
  {
    if order == [] then []
    else
      var k, before := order[|order| - 1], EmitAll(c, m, order[..|order| - 1], now);
      if now < Deadline(c, k) then before else before + [Emit(c, k, m[k])]
  }

  lemma {:induction false} EmitAllHas(c: Spec, m: map<int, Agg>, order: seq<int>, now: Instant, i: nat)
    requires Counted(m) && forall j :: 0 <= j < |order| ==> order[j] in m
    requires i < |order| && Deadline(c, order[i]) <= now
    ensures Emit(c, order[i], m[order[i]]) in EmitAll(c, m, order, now)
  {
    hide Emit, Deadline;
    if i < |order| - 1 {
      EmitAllHas(c, m, order[..|order| - 1], now, i);
    }
  }

  lemma {:induction false} EmitAllOnly(c: Spec, m: map<int, Agg>, order: seq<int>, now: Instant, x: nat) returns (i: nat)
    requires Counted(m) && forall j :: 0 <= j < |order| ==> order[j] in m
    requires x < |EmitAll(c, m, order, now)|
    ensures i < |order| && Deadline(c, order[i]) <= now
    ensures EmitAll(c, m, order, now)[x] == Emit(c, order[i], m[order[i]])
    ensures x == |EmitAll(c, m, order, now)| - 1 || i < |order| - 1
  {
    hide Emit, Deadline;
    i := |order| - 1;
    if x < |EmitAll(c, m, order[..i], now)| {
      i := EmitAllOnly(c, m, order[..i], now, x);
    }
  }

  lemma {:induction false} EmitAllApart(c: Spec, m: map<int, Agg>, order: seq<int>, now: Instant, x: nat, y: nat)
    requires Counted(m) && forall j :: 0 <= j < |order| ==> order[j] in m
    requires forall i, j :: 0 <= i < j < |order| ==> order[i] != order[j]
    requires x < y < |EmitAll(c, m, order, now)|
    ensures EmitAll(c, m, order, now)[x].windowStart != EmitAll(c, m, order, now)[y].windowStart
  {
    var n := |order| - 1;
    var before := EmitAll(c, m, order[..n], now);
    if y < |before| {
      EmitAllApart(c, m, order[..n], now, x, y);
    } else {
      var i := EmitAllOnly(c, m, order[..n], now, x);
      assert order[..n][i] != order[n];
    }
  }

  /** A FLUSH RETURNS EXACTLY WHAT IT HARVESTS, each window once, whatever order the map is
      ranged over. */
  lemma {:induction false} FlushReturnsHarvest(c: Spec, s: TState, order: seq<int>, now: Instant)
    requires Visits(order, s.buckets) && Counted(s.buckets)
    ensures var out, h := EmitAll(c, s.buckets, order, now), Harvested(c, s, now);
            && (forall a :: a in out <==> exists k :: k in h && a == Emit(c, k, h[k]))
            && (forall x, y :: 0 <= x < y < |out| ==> out[x].windowStart != out[y].windowStart)
  {
    var out, h := EmitAll(c, s.buckets, order, now), Harvested(c, s, now);
    forall x, y | 0 <= x < y < |out| ensures out[x].windowStart != out[y].windowStart {
      EmitAllApart(c, s.buckets, order, now, x, y);
    }
    hide Emit, EmitAll;
    forall a | a in out ensures exists k :: k in h && a == Emit(c, k, h[k]) {
      var x :| 0 <= x < |out| && out[x] == a;
      var i := EmitAllOnly(c, s.buckets, order, now, x);
      assert order[i] in h;
    }
    forall k | k in h ensures Emit(c, k, h[k]) in out {
      var i :| 0 <= i < |order| && order[i] == k;
      EmitAllHas(c, s.buckets, order, now, i);
    }
  }

  lemma {:induction false} EmitAllNext(c: Spec, m: map<int, Agg>, order: seq<int>, now: Instant, i: nat)
    requires Counted(m) && (forall j :: 0 <= j < |order| ==> order[j] in m) && i < |order|
    ensures var k, before := order[i], EmitAll(c, m, order[..i], now);
            EmitAll(c, m, order[..i + 1], now) == if now < Deadline(c, k) then before else before + [Emit(c, k, m[k])]
  {
    assert order[..i + 1][..i] == order[..i];
  }

  lemma {:induction false} EmitAllNone(c: Spec, m: map<int, Agg>, now: Instant)
    requires Counted(m)
    ensures EmitAll(c, m, [], now) == []
  {
  }

  lemma StillToVisit(order: seq<int>, i: nat)
    requires i < |order| && forall a, b :: 0 <= a < b < |order| ==> order[a] != order[b]
    ensures forall x :: x in order[i..] <==> x == order[i] || x in order[i + 1..]
    ensures order[i] !in order[i + 1..]
  {
  }

  class Tumbler {
    const c: Spec
    var buckets: map<int, Bucket>
    var late: nat

    // The readings Add has reported false for.
    ghost var refused: seq<SensorReading>

    ghost predicate Valid()
      reads this, buckets.Values
    {
      && late == |refused|
      && (forall k :: k in buckets ==> buckets[k].Filled())
      && (forall j, k :: j in buckets && k in buckets && buckets[j] == buckets[k] ==> j == k)
    }

    ghost function View(): TState
      reads this, buckets.Values
      requires Valid()
    {
      TState(map k | k in buckets :: buckets[k].View(), late)
    }

    constructor (size: int, allowedLateness: int)
      ensures Valid() && View() == TState(map[], 0) && refused == [] && c == Spec(size, allowedLateness)
    {
      c := Spec(size, allowedLateness);
      buckets := map[];
      late, refused := 0, [];
    }

    /** Reports false for a late reading, which is counted and not stored. */
    method Add(r: SensorReading, now: Instant) returns (ok: bool)
      requires Valid()
      modifies this, buckets.Values
      ensures Valid() && View() == AddTo(c, old(View()), r, now)
      ensures ok <==> OnTime(c, r, now)
      ensures forall start :: Spans(c, start, r.time) ==> (ok <==> now < start + c.size + c.lateness)
      ensures refused == if ok then old(refused) else old(refused) + [r]
      ensures forall k :: k in buckets && k in old(buckets) ==> buckets[k] == old(buckets[k])
      ensures fresh(buckets.Values - old(buckets.Values))
    {
      hide Push, Truncate, Unix;
      forall start | Spans(c, start, r.time) ensures OnTime(c, r, now) <==> now < start + c.size + c.lateness {
        OnTimeUntilGrace(c, r, start, now);
      }
      var start := Truncate(r.time, c.size);
      if now >= start + c.size + c.lateness {
        late, refused := late + 1, refused + [r];
        return false;
      }
      ghost var was := View().buckets;
      var key := Unix(start);
      if key !in buckets {
        var b := new Bucket();
        buckets := buckets[key := b];
      }
      buckets[key].Take(r.tempC);
      assert forall k :: k in was && k != key ==> buckets[k].View() == was[k];
      assert View().buckets == was[key := Push(Lookup(was, key), r.tempC)];
      return true;
    }

    /** The body of the flush loop: one window is harvested if its grace period has expired. */
    method CloseOne(k: int, now: Instant) returns (a: Option<WindowAggregate>)
      requires Valid() && k in buckets
      modifies this`buckets
      ensures now < Deadline(c, k) ==> a.None? && buckets == old(buckets)
      ensures Deadline(c, k) <= now ==> a == Some(Emit(c, k, old(buckets[k].View()))) && buckets == old(buckets) - {k}
      ensures a.Some? ==> forall xs :: Summarizes(old(buckets[k].View()), xs) ==> Reports(a.value, xs)
    {
      forall xs | Summarizes(buckets[k].View(), xs) ensures Reports(Emit(c, k, buckets[k].View()), xs) {
        EmittedReports(c, k, buckets[k].View(), xs);
      }
      hide Reports;
      var b := buckets[k];
      var start := FromUnix(k);
      if now < start + c.size + c.lateness {
        return None;
      }
      a := Some(WindowAggregate("national", start, start + c.size, Average(b.sum, b.count), b.min.v, b.max.v, b.count));
      buckets := buckets - {k};
    }

    /** Removes and returns every window whose grace period has expired; `order` is the order in
        which ranging over the map happens to visit the keys. */
    method Closed(now: Instant, order: seq<int>) returns (out: seq<WindowAggregate>)
      requires Valid() && Visits(order, buckets)
      modifies this
      ensures Valid() && View() == Kept(c, old(View()), now) && refused == old(refused)
      ensures Counted(old(View()).buckets) && out == EmitAll(c, old(View()).buckets, order, now)
    {
      hide Deadline, Emit, EmitAll, Summarizes, Reports, Average;
      ghost var was := View();
      ghost var all := buckets;
      out := [];
      EmitAllNone(c, was.buckets, now);
      for i := 0 to |order|
        invariant late == was.late && refused == old(refused)
        invariant forall k :: k in buckets <==> k in all && (k in order[i..] || now < Deadline(c, k))
        invariant forall k :: k in buckets ==> buckets[k] == all[k]
        invariant out == EmitAll(c, was.buckets, order[..i], now)
      {
        StillToVisit(order, i);
        EmitAllNext(c, was.buckets, order, now, i);
        var a := CloseOne(order[i], now);
        if a.Some? {
          out := out + [a.value];
        }
      }
      assert order[..|order|] == order;
      assert order[|order|..] == [];
      assert forall k :: k in buckets ==> buckets[k].View() == was.buckets[k];
      ghost var kept := Kept(c, was, now).buckets;
      assert forall k :: k in View().buckets <==> k in kept;
      assert forall k :: k in kept ==> View().buckets[k] == kept[k];
      assert View().buckets == kept;
    }

    /** How many readings Add has refused, ever. */
    method LateCount() returns (n: nat)
      requires Valid()
      ensures n == |refused| == View().late
    {
      n := late;
    }
  }
}
