/** How many windows stay open, in every interleaving. */
module WindowBounds {
  import opened Events
  import opened Windows
  import opened WindowThreads

  function CeilDiv(a: int, b: int): nat
    requires b > 0
  {
    if a <= 0 then 0 else (a + b - 1) / b
  }

  /** That many times `b` does not fit into `a` a whole time less. */
  lemma CeilFits(n: nat, a: int, b: int)
    requires b > 0 && n <= CeilDiv(a, b)
    ensures n > 0 ==> (n - 1) * b < a
  {
    if n > 0 {
      var q := (a + b - 1) / b;
      assert a + b - 1 == q * b + (a + b - 1) % b;
      assert (q - n) * b >= 0;
      assert (q - n) * b == q * b - n * b;
      assert (n - 1) * b == n * b - b;
    }
  }

  /** The key of the `q`-th window since the zero time. */
  function KeyAt(c: Spec, q: int): int {
    Unix(q * c.size)
  }

  /** The keys of the `n` windows up to the `top`-th. */
  function LatestKeys(c: Spec, top: int, n: nat): set<int> {
    if n == 0 then {} else LatestKeys(c, top, n - 1) + {KeyAt(c, top - (n - 1))}
  }

  lemma {:induction false} LatestKeysFew(c: Spec, top: int, n: nat)
    ensures |LatestKeys(c, top, n)| <= n
    ensures forall q :: top - n < q <= top ==> KeyAt(c, q) in LatestKeys(c, top, n)
  {
    hide KeyAt;
    if n > 0 {
      LatestKeysFew(c, top, n - 1);
    }
  }

  lemma FactorBelow(a: int, size: int)
    requires size > 0 && a * size < size
    ensures a <= 0
  {
  }

  lemma DivAtLeast(d: int, x: int, size: int)
    requires size > 0 && d * size <= x
    ensures d <= x / size
  {
    var q := x / size;
    assert x == q * size + x % size;
    assert (d - q) * size == d * size - q * size;
    FactorBelow(d - q, size);
  }

  /** A window started by `now` and not yet expired is one of the latest. */
  lemma OpenIsLatest(c: Spec, now: Instant, r: SensorReading)
    requires WholeSeconds(c) && r.time <= now && now < Deadline(c, KeyOf(c, r))
    ensures var top, q := now / c.size, r.time / c.size;
            KeyOf(c, r) == KeyAt(c, q) && top - CeilDiv(c.size + c.lateness, c.size) < q <= top
  {
    var top, q, length := now / c.size, r.time / c.size, c.size + c.lateness;
    WholeStart(c, r.time);
    assert r.time == q * c.size + r.time % c.size;
    assert now == top * c.size + now % c.size;
    DivAtLeast(q, now, c.size);
    var d := top - q;
    assert d * c.size == top * c.size - q * c.size;
    assert (d + 1) * c.size == d * c.size + c.size;
    DivAtLeast(d + 1, length + c.size - 1, c.size);
  }

  lemma {:induction false} OpenHasReading(c: Spec, ls: seq<Label>, k: int)
    requires k in Interleave(c, ls).state.buckets
    ensures WindowOf(c, Interleave(c, ls).stored, k) != []
  {
    NothingLostPerWindow(c, ls, k);
  }

  lemma {:induction false} KeptIsOpen(c: Spec, ls: seq<Label>, k: int)
    requires ls != [] && ls[|ls| - 1].Flush? && k in Interleave(c, ls).state.buckets
    ensures ls[|ls| - 1].now < Deadline(c, k)
  {
  }

  /** THE OPEN-WINDOW BOUND. Right after a flush at `now`, if no stored reading is from the future, no more
      buckets are open than windows fit into size plus grace, whatever the threads did before. */
  lemma {:induction false} OpenWindowBound(c: Spec, ls: seq<Label>)
    requires WholeSeconds(c) && ls != [] && ls[|ls| - 1].Flush?
    requires forall i :: 0 <= i < |Interleave(c, ls).stored| ==> Interleave(c, ls).stored[i].time <= ls[|ls| - 1].now
    ensures |Interleave(c, ls).state.buckets| <= CeilDiv(c.size + c.lateness, c.size)
    ensures var n := |Interleave(c, ls).state.buckets|; n > 0 ==> (n - 1) * c.size < c.size + c.lateness
  {
    hide Interleave, Deadline, KeyOf, KeyAt, CeilDiv, LatestKeys, WindowOf;
    var s, now, n := Interleave(c, ls), ls[|ls| - 1].now, CeilDiv(c.size + c.lateness, c.size);
    var latest := LatestKeys(c, now / c.size, n);
    LatestKeysFew(c, now / c.size, n);
    forall k | k in s.state.buckets ensures k in latest {
      OpenHasReading(c, ls, k);
      WindowHasReading(c, s.stored, k);
      var i :| 0 <= i < |s.stored| && KeyOf(c, s.stored[i]) == k;
      KeptIsOpen(c, ls, k);
      OpenIsLatest(c, now, s.stored[i]);
    }
    assert latest == s.state.buckets.Keys + (latest - s.state.buckets.Keys);
    CeilFits(|s.state.buckets|, c.size + c.lateness, c.size);
  }
}
