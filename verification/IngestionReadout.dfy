/** The order of the clean topic read off its records: what `Offsets`, `CleanOffsets` and `Collapse` of module
    `IngestionOrder` stand for, and clean-topic order without them. */
module IngestionReadout {
  import opened Events
  import opened Ingestion
  import opened IngestionSafety
  import opened IngestionOrder

  ghost predicate Increasing(xs: seq<nat>) {
    forall i, j :: 0 <= i < j < |xs| ==> xs[i] < xs[j]
  }

  /** The message carries a reading that is selected. */
  ghost predicate Wanted(cfg: Config, value: Bytes, sel: Selector) {
    exists r :: Carries(cfg, value, r) && sel(r)
  }

  lemma WantedIsPicked(cfg: Config, value: Bytes, sel: Selector)
    ensures Picked(cfg, value, sel) <==> Wanted(cfg, value, sel)
  {
    hide Judge, Carries;
    JudgedByItsFaults(cfg, value);
    if Picked(cfg, value, sel) {
      assert Carries(cfg, value, Judge(cfg, value).reading);
    }
  }

  /** The raw offsets are those of the selected valid messages, each once and in order. */
  lemma {:induction false} OffsetsAre(cfg: Config, log: seq<Bytes>, n: nat, sel: Selector)
    requires n <= |log|
    ensures Increasing(Offsets(cfg, log, n, sel))
    ensures forall o :: o in Offsets(cfg, log, n, sel) <==> 0 <= o < n && Wanted(cfg, log[o], sel)
  {
    hide Picked, Wanted;
    if n > 0 {
      OffsetsAre(cfg, log, n - 1, sel);
      WantedIsPicked(cfg, log[n - 1], sel);
      var before := Offsets(cfg, log, n - 1, sel);
      assert forall i :: 0 <= i < |before| ==> before[i] in before;
    }
  }

  /** The selected record of a partition. */
  ghost predicate Counts(c: CleanRecord, p: nat, sel: Selector) {
    c.from.p == p && sel(c.reading)
  }

  /** `xs` are the offsets of the selected records of the partition, in order; `at` are their places. */
  ghost predicate Places(clean: seq<CleanRecord>, p: nat, sel: Selector, xs: seq<nat>, at: seq<nat>) {
    && Increasing(at) && |at| == |xs|
    && (forall j :: 0 <= j < |at| ==> at[j] < |clean| && Counts(clean[at[j]], p, sel) && clean[at[j]].from.o == xs[j])
    && (forall i: nat :: i < |clean| && Counts(clean[i], p, sel) ==> i in at)
  }

  lemma OneMorePlace(clean: seq<CleanRecord>, c: CleanRecord, p: nat, sel: Selector, xs: seq<nat>, at: seq<nat>)
    requires Places(clean, p, sel, xs, at)
    ensures if Counts(c, p, sel) then Places(clean + [c], p, sel, xs + [c.from.o], at + [|clean|])
            else Places(clean + [c], p, sel, xs, at)
  {
    var more := clean + [c];
    assert more[|clean|] == c && forall i :: 0 <= i < |clean| ==> more[i] == clean[i];
    forall i: nat | i < |more| && Counts(more[i], p, sel) ensures i in at + [|clean|] && (i in at || i == |clean|) {
    }
  }

  /** The clean offsets are just that. */
  lemma {:induction false} CleanOffsetsAre(clean: seq<CleanRecord>, p: nat, sel: Selector) returns (at: seq<nat>)
    ensures Places(clean, p, sel, CleanOffsets(clean, p, sel), at)
  {
    at := [];
    if clean != [] {
      hide Places;
      var n := |clean| - 1;
      at := CleanOffsetsAre(clean[..n], p, sel);
      OneMorePlace(clean[..n], clean[n], p, sel, CleanOffsets(clean[..n], p, sel), at);
      assert clean == clean[..n] + [clean[n]];
      if Counts(clean[n], p, sel) {
        at := at + [n];
      }
    }
  }

  /** `ys` keeps one of every run of equal neighbours of `xs`; element `i` ends up at `at[i]`. */
  ghost predicate KeepsOne(xs: seq<nat>, ys: seq<nat>, at: seq<nat>) {
    && |at| == |xs|
    && (xs == [] ==> ys == [])
    && (xs != [] ==> at[0] == 0 && |ys| == at[|xs| - 1] + 1)
    && (forall i :: 0 < i < |xs| ==> at[i] == if xs[i] == xs[i - 1] then at[i - 1] else at[i - 1] + 1)
    && (forall i :: 0 <= i < |xs| ==> at[i] < |ys| && ys[at[i]] == xs[i])
    && (forall i, j :: 0 <= i <= j < |xs| ==> at[i] <= at[j])
  }

  lemma KeepsOneMore(xs: seq<nat>, ys: seq<nat>, at: seq<nat>, x: nat)
    requires KeepsOne(xs, ys, at) && xs != []
    ensures var n := |xs| - 1;
            var again := x == xs[n];
            KeepsOne(xs + [x], if again then ys else ys + [x], at + [if again then at[n] else at[n] + 1])
  {
    var n := |xs| - 1;
    var more, b := xs + [x], at + [if x == xs[n] then at[n] else at[n] + 1];
    assert forall i :: 0 <= i <= n ==> more[i] == xs[i] && b[i] == at[i];
  }

  lemma {:induction false} CollapseLast(xs: seq<nat>)
    requires |xs| > 1
    ensures var n := |xs| - 1;
            Collapse(xs) == if xs[n] == xs[n - 1] then Collapse(xs[..n]) else Collapse(xs[..n]) + [xs[n]]
  {
  }

  lemma {:induction false} CollapseOne(xs: seq<nat>)
    requires |xs| <= 1
    ensures KeepsOne(xs, Collapse(xs), if xs == [] then [] else [0])
  {
  }

  lemma {:induction false} CollapseIs(xs: seq<nat>) returns (at: seq<nat>)
    ensures KeepsOne(xs, Collapse(xs), at)
  {
    hide KeepsOne, Collapse;
    if |xs| <= 1 {
      at := if xs == [] then [] else [0];
      CollapseOne(xs);
    } else {
      var n := |xs| - 1;
      CollapseLast(xs);
      at := CollapseIs(xs[..n]);
      KeepsOneMore(xs[..n], Collapse(xs[..n]), at, xs[n]);
      KeptLength(xs[..n], Collapse(xs[..n]), at);
      assert xs == xs[..n] + [xs[n]];
      at := at + [if xs[n] == xs[n - 1] then at[n - 1] else at[n - 1] + 1];
    }
  }

  lemma KeptLength(xs: seq<nat>, ys: seq<nat>, at: seq<nat>)
    requires KeepsOne(xs, ys, at)
    ensures |at| == |xs|
  {
  }

  lemma {:induction false} EachIsKept(xs: seq<nat>, ys: seq<nat>, at: seq<nat>, k: nat, n: nat) returns (b: nat)
    requires KeepsOne(xs, ys, at) && n < |xs| && k <= at[n]
    ensures b <= n && at[b] == k
  {
    b := n;
    if k < at[n] {
      b := EachIsKept(xs, ys, at, k, n - 1);
    }
  }

  /** IN THE ORDER OF THE LOG. Unless a message overtook on its partition: of two selected clean records the later
      has no smaller offset, and every selected valid message before the one of a clean record has a clean record
      before that. */
  lemma {:induction false} CleanInOrder(cfg: Config, raw: seq<seq<Bytes>>, ls: seq<Label>, p: nat, sel: Selector, i: nat)
    requires p < |raw| && NoOvertaking(cfg, Init(raw), ls, p)
    requires i < |Run(cfg, Init(raw), ls).clean| && Counts(Run(cfg, Init(raw), ls).clean[i], p, sel)
    ensures var clean := Run(cfg, Init(raw), ls).clean;
            forall j :: i <= j < |clean| && Counts(clean[j], p, sel) ==> clean[i].from.o <= clean[j].from.o
    ensures var s := Run(cfg, Init(raw), ls);
            |s.raw| == |raw|
            && forall o :: 0 <= o < |s.raw[p]| && o < s.clean[i].from.o && Wanted(cfg, s.raw[p][o], sel) ==>
                 exists j :: 0 <= j < i && s.clean[j].from == Pos(p, o)
  {
    CleanFollowsRaw(cfg, raw, ls, p, sel);
    hide Run, Wanted, NextClean, NoOvertaking, Collapse, CleanOffsets, Offsets;
    var s := Run(cfg, Init(raw), ls);
    ReadInOrder(cfg, s.raw[p], s.clean, p, NextClean(s.clean, p), sel, i);
  }

  lemma {:induction false} ReadInOrder(
      cfg: Config, log: seq<Bytes>, clean: seq<CleanRecord>, p: nat, n: nat, sel: Selector, i: nat)
    requires n <= |log| && Collapse(CleanOffsets(clean, p, sel)) == Offsets(cfg, log, n, sel)
    requires i < |clean| && Counts(clean[i], p, sel)
    ensures forall j :: i <= j < |clean| && Counts(clean[j], p, sel) ==> clean[i].from.o <= clean[j].from.o
    ensures forall o :: 0 <= o < |log| && o < clean[i].from.o && Wanted(cfg, log[o], sel) ==>
              exists j :: 0 <= j < i && clean[j].from == Pos(p, o)
  {
    hide Wanted, Collapse, CleanOffsets, Offsets;
    var xs := CleanOffsets(clean, p, sel);
    var places := CleanOffsetsAre(clean, p, sel);
    var at := CollapseIs(xs);
    OffsetsAre(cfg, log, n, sel);
    assert i in places;
    var a :| 0 <= a < |places| && places[a] == i;
    forall j | i <= j < |clean| && Counts(clean[j], p, sel) ensures clean[i].from.o <= clean[j].from.o {
      assert j in places;
      var b :| 0 <= b < |places| && places[b] == j;
      assert a <= b;
    }
    forall o | 0 <= o < |log| && o < clean[i].from.o && Wanted(cfg, log[o], sel)
      ensures exists j :: 0 <= j < i && clean[j].from == Pos(p, o)
    {
      assert Collapse(xs)[at[a]] in Offsets(cfg, log, n, sel);
      assert o in Offsets(cfg, log, n, sel);
      var k :| 0 <= k < |Collapse(xs)| && Collapse(xs)[k] == o;
      assert k < at[a];
      var b := EachIsKept(xs, Collapse(xs), at, k, a);
      assert b < a;
      assert places[b] in places;
      assert clean[places[b]].from == Pos(p, o);
    }
  }
}
