/** What an emitted aggregate promises about its readings. */
module WindowAverages {
  import opened Events
  import opened Rounding
  import opened Windows

  lemma {:induction false} SumBetween(xs: seq<real>, lo: real, hi: real)
    requires forall i :: 0 <= i < |xs| ==> lo <= xs[i] <= hi
    ensures lo * |xs| as real <= Sum(xs) <= hi * |xs| as real
  {
    if xs != [] {
      SumBetween(xs[..|xs| - 1], lo, hi);
    }
  }

  lemma PositiveFactor(a: real, n: real)
    requires n > 0.0 && a * n >= 0.0
    ensures a >= 0.0
  {
  }

  lemma DivBetween(lo: real, hi: real, sum: real, n: real)
    requires n > 0.0 && lo * n <= sum <= hi * n
    ensures lo <= sum / n <= hi
  {
    var q := sum / n;
    assert (q - lo) * n == sum - lo * n && (hi - q) * n == hi * n - sum;
    PositiveFactor(q - lo, n);
    PositiveFactor(hi - q, n);
  }

  lemma MeanBetween(a: Agg, xs: seq<real>)
    requires Summarizes(a, xs)
    ensures a.min <= a.sum / a.count as real <= a.max
  {
    SumBetween(xs, a.min, a.max);
    DivBetween(a.min, a.max, a.sum, a.count as real);
  }

  /** What a record says of its readings: their number, their true extremes, and their mean to two decimals. */
  ghost predicate Reports(w: WindowAggregate, xs: seq<real>) {
    && w.scope == "national"
    && w.count == |xs| > 0
    && (exists i :: 0 <= i < |xs| && xs[i] == w.minTempC)
    && (exists i :: 0 <= i < |xs| && xs[i] == w.maxTempC)
    && (forall i :: 0 <= i < |xs| ==> w.minTempC <= xs[i] <= w.maxTempC)
    && ToHundredths(Sum(xs) / |xs| as real, w.avgTempC)
  }

  /** A RECORD REPORTS ITS READINGS. */
  lemma EmittedReports(c: Spec, k: int, a: Agg, xs: seq<real>)
    requires Summarizes(a, xs)
    ensures Reports(Emit(c, k, a), xs)
  {
    RoundedToHundredths(Sum(xs) / |xs| as real);
  }

  /** The readings determine the record but for its bounds. */
  lemma ReportIsUnique(v: WindowAggregate, w: WindowAggregate, xs: seq<real>)
    requires Reports(v, xs) && Reports(w, xs)
    ensures (v.scope, v.count, v.minTempC, v.maxTempC, v.avgTempC) == (w.scope, w.count, w.minTempC, w.maxTempC, w.avgTempC)
  {
    var i :| 0 <= i < |xs| && xs[i] == v.minTempC;
    var j :| 0 <= j < |xs| && xs[j] == w.minTempC;
    var k :| 0 <= k < |xs| && xs[k] == v.maxTempC;
    var l :| 0 <= l < |xs| && xs[l] == w.maxTempC;
    OneRounding(Sum(xs) / |xs| as real, v.avgTempC, w.avgTempC);
  }

  /** With extremes in hundredths the emitted average stays between them. */
  lemma AverageBetween(a: Agg, xs: seq<real>)
    requires Summarizes(a, xs) && Hundredths(a.min) && Hundredths(a.max)
    ensures a.min <= Average(a.sum, a.count) <= a.max
  {
    MeanBetween(a, xs);
    var m := a.sum / a.count as real * 100.0;
    var lo, hi := (a.min * 100.0).Floor, (a.max * 100.0).Floor;
    RoundIsMonotone(lo as real, m);
    RoundIsMonotone(m, hi as real);
    RoundFixesIntegers(lo);
    RoundFixesIntegers(hi);
  }

  /** So it does for one-decimal readings, as every drift step makes them, however many there are. */
  lemma AverageOfOneDecimalReadings(c: Spec, k: int, a: Agg, xs: seq<real>)
    requires Summarizes(a, xs) && forall i :: 0 <= i < |xs| ==> Tenths(xs[i])
    ensures var w := Emit(c, k, a); w.minTempC <= w.avgTempC <= w.maxTempC
  {
    TenthsAreHundredths(a.min);
    TenthsAreHundredths(a.max);
    AverageBetween(a, xs);
  }

  /** WHEN THE AVERAGE CAN LEAVE ITS EXTREMES. For a stock of possible temperatures, every window
      filled from it has its average between its extremes exactly when the stock is all hundredths. */
  lemma AverageBetweenIffHundredths(c: Spec, k: int, stock: set<real>)
    ensures (forall a: Agg, xs: seq<real> :: Summarizes(a, xs) && (forall i :: 0 <= i < |xs| ==> xs[i] in stock) ==>
               var w := Emit(c, k, a); w.minTempC <= w.avgTempC <= w.maxTempC)
       <==> (forall x :: x in stock ==> Hundredths(x))
  {
    if forall x :: x in stock ==> Hundredths(x) {
      forall a: Agg, xs: seq<real> | Summarizes(a, xs) && forall i :: 0 <= i < |xs| ==> xs[i] in stock
        ensures var w := Emit(c, k, a); w.minTempC <= w.avgTempC <= w.maxTempC
      {
        AverageBetween(a, xs);
      }
    } else {
      var x :| x in stock && !Hundredths(x);
      var a, xs := Agg(x, 1, x, x), [x];
      assert xs[..0] == [] && Sum(xs) == x;
      assert xs[0] == x;
      assert Summarizes(a, xs);
      assert Average(a.sum, a.count) != x by { AverageIsHundredths(x); }
    }
  }

  lemma AverageIsHundredths(x: real)
    ensures Average(x, 1) == x ==> Hundredths(x)
  {
    if Average(x, 1) == x {
      assert x * 100.0 == Round(x / 1.0 * 100.0) as real;
    }
  }

  /** Every aggregate made from readings passes its own check, so the flusher's publish accepts it. */
  lemma EmittedIsValid(c: Spec, k: int, a: Agg, xs: seq<real>)
    requires c.size > 0 && Summarizes(a, xs)
    ensures Emit(c, k, a).Validate() == None
  {
    assert a.min <= xs[0] <= a.max;
  }
}
