/** The aggregator as its mutex would have it if `Add` held it throughout: the serial runs. They are the
    interleavings that keep check and update together, operation by operation and clock by clock. */
module WindowRuns {
  import opened Events
  import opened Windows
  import opened WindowThreads
  import opened WindowRaces

  datatype Op = Add(r: SensorReading, now: Instant) | Close(now: Instant)

  /** The Tumbler, with the readings it accepted and the flushes so far. */
  datatype Log = Log(state: TState, accepted: seq<SensorReading>, harvests: seq<Harvest>)

  const EMPTY: Log := Log(TState(map[], 0), [], [])

  function Step(c: Spec, h: Log, op: Op): Log {
    match op
    case Add(r, now) =>
      h.(state := AddTo(c, h.state, r, now), accepted := if OnTime(c, r, now) then h.accepted + [r] else h.accepted)
    case Close(now) =>
      h.(state := Kept(c, h.state, now), harvests := h.harvests + [Harvest(now, Harvested(c, h.state, now))])
  }

  function Run(c: Spec, ops: seq<Op>): Log {
    if ops == [] then EMPTY else Step(c, Run(c, ops[..|ops| - 1]), ops[|ops| - 1])
  }

  function Serialize(ops: seq<Op>): seq<Label> {
    if ops == [] then []
    else
      match ops[|ops| - 1]
      case Add(r, now) => Serialize(ops[..|ops| - 1]) + [Check(0, r, now)] + [Update(0)]
      case Close(now) => Serialize(ops[..|ops| - 1]) + [Flush(now)]
  }

  ghost predicate SameAs(s: Shared, h: Log) {
    s.state == h.state && s.harvests == h.harvests && s.stored == h.accepted
  }

  lemma {:induction false} GuardedSnoc(c: Spec, ls: seq<Label>, l: Label)
    requires Guarded(c, ls) && (l.Flush? ==> Interleave(c, ls).pending == map[])
    ensures Guarded(c, ls + [l])
  {
    hide Interleave;
    assert (ls + [l])[..|ls|] == ls;
    forall n | 0 <= n < |ls + [l]| ensures !Strands(c, Interleave(c, (ls + [l])[..n]), (ls + [l])[n]) {
      if n < |ls| {
        assert (ls + [l])[..n] == ls[..n];
        assert !Strands(c, Interleave(c, ls[..n]), ls[n]);
      }
    }
  }

  /** A check and its update, taken together, are one add. */
  lemma CheckAndUpdate(c: Spec, s: Shared, h: Log, r: SensorReading, now: Instant)
    requires SameAs(s, h) && s.pending == map[]
    ensures var t := Next(c, Next(c, s, Check(0, r, now)), Update(0));
            SameAs(t, Step(c, h, Add(r, now))) && t.pending == map[]
  {
    hide OnTime, KeyOf, Push;
    assert s.pending[0 := r] - {0} == map[];
  }

  lemma FlushIsClose(c: Spec, s: Shared, h: Log, now: Instant)
    requires SameAs(s, h)
    ensures SameAs(Next(c, s, Flush(now)), Step(c, h, Close(now))) && Next(c, s, Flush(now)).pending == s.pending
  {
    hide Kept, Harvested;
  }

  /** Serial runs are guarded interleavings, so everything in module `WindowRaces` holds of them. */
  lemma {:induction false} SerialRuns(c: Spec, ops: seq<Op>)
    ensures SameAs(Interleave(c, Serialize(ops)), Run(c, ops)) && Interleave(c, Serialize(ops)).pending == map[]
    ensures Guarded(c, Serialize(ops))
  {
    if ops != [] {
      hide Guarded, Next, Step, SameAs;
      var before := Serialize(ops[..|ops| - 1]);
      SerialRuns(c, ops[..|ops| - 1]);
      match ops[|ops| - 1]
      case Add(r, now) =>
        CheckAndUpdate(c, Interleave(c, before), Run(c, ops[..|ops| - 1]), r, now);
        InterleaveSnoc(c, before, Check(0, r, now));
        GuardedSnoc(c, before, Check(0, r, now));
        InterleaveSnoc(c, before + [Check(0, r, now)], Update(0));
        GuardedSnoc(c, before + [Check(0, r, now)], Update(0));
      case Close(now) =>
        FlushIsClose(c, Interleave(c, before), Run(c, ops[..|ops| - 1]), now);
        InterleaveSnoc(c, before, Flush(now));
        GuardedSnoc(c, before, Flush(now));
    } else {
      assert Guarded(c, []);
    }
  }

  /** No operation after a flush goes by an earlier clock. */
  ghost predicate ClockedOps(ops: seq<Op>) {
    forall i, j :: 0 <= i <= j < |ops| && ops[i].Close? ==> ops[i].now <= ops[j].now
  }

  lemma {:induction false} SerialClock(ops: seq<Op>)
    requires ClockedOps(ops)
    ensures Clocked(Serialize(ops))
    ensures forall i :: 0 <= i < |Serialize(ops)| && Serialize(ops)[i].Flush? ==>
              exists j :: 0 <= j < |ops| && ops[j] == Close(Serialize(ops)[i].now)
  {
    if ops != [] {
      var n := |ops| - 1;
      var before := Serialize(ops[..n]);
      SerialClock(ops[..n]);
      assert forall j :: 0 <= j < n ==> ops[..n][j] == ops[j];
      assert Serialize(ops)[..|before|] == before;
      if ops[n].Close? {
        assert Serialize(ops)[|before|] == Flush(ops[n].now);
      }
    }
  }

  /** BATCH AND TIMING FOR SERIAL RUNS. Open and emitted windows summarize exactly the accepted readings, each
      window is emitted once, by the first flush at or after its end plus the grace period. */
  lemma {:induction false} SerialRunsAreBatch(c: Spec, ops: seq<Op>, k: int)
    requires WholeSeconds(c) && ClockedOps(ops)
    ensures var h := Run(c, ops); var xs := WindowOf(c, h.accepted, k);
            && (xs != [] <==> k in h.state.buckets || exists j :: 0 <= j < |h.harvests| && k in h.harvests[j].windows)
            && (k in h.state.buckets ==> Summarizes(h.state.buckets[k], xs))
            && (forall j :: 0 <= j < |h.harvests| && k in h.harvests[j].windows ==>
                  (k !in h.state.buckets && Summarizes(h.harvests[j].windows[k], xs)
                   && var close := Emit(c, k, h.harvests[j].windows[k]).windowEnd + c.lateness;
                   close <= h.harvests[j].now
                   && (forall i :: 0 <= i < j ==> h.harvests[i].now < close)
                   && (forall i :: 0 <= i < |h.harvests| && k in h.harvests[i].windows ==> i == j)))
  {
    hide Run, Interleave, Serialize, WindowOf, Deadline;
    var ls, h := Serialize(ops), Run(c, ops);
    SerialRuns(c, ops);
    SerialClock(ops);
    GuardedIsRaceFree(c, ls);
    StreamingIsBatch(c, ls, k);
    assert Flushed(Interleave(c, ls), k) <==> exists j :: 0 <= j < |h.harvests| && k in h.harvests[j].windows;
    forall j | 0 <= j < |h.harvests| && k in h.harvests[j].windows
      ensures Summarizes(h.harvests[j].windows[k], WindowOf(c, h.accepted, k))
      ensures Emit(c, k, h.harvests[j].windows[k]).windowEnd + c.lateness <= h.harvests[j].now
      ensures forall i :: 0 <= i < j ==> h.harvests[i].now < Emit(c, k, h.harvests[j].windows[k]).windowEnd + c.lateness
      ensures forall i :: 0 <= i < |h.harvests| && k in h.harvests[i].windows ==> i == j
    {
      EmittedOnceOnTime(c, ls, j, k);
    }
  }

  // ----- Adjacent interleavings are serial -----

  /** Whoever has passed the check takes the lock next. */
  ghost predicate Adjacent(c: Spec, ls: seq<Label>) {
    forall n :: 0 <= n < |ls| && Interleave(c, ls[..n]).pending != map[] ==>
      ls[n].Update? && ls[n].thread in Interleave(c, ls[..n]).pending
  }

  /** The operation a label begins: a check is the start of an add, with its reading and its clock. */
  function OpsOf(l: Label): seq<Op> {
    match l
    case Check(_, r, now) => [Add(r, now)]
    case Update(_) => []
    case Flush(now) => [Close(now)]
  }

  /** The operations of an interleaving, in the order they begin. */
  function Ops(ls: seq<Label>): seq<Op> {
    if ls == [] then [] else Ops(ls[..|ls| - 1]) + OpsOf(ls[|ls| - 1])
  }

  /** `s` is what these operations leave, but for the update of a reading that has just passed its check. */
  ghost predicate Catching(c: Spec, s: Shared, ops: seq<Op>) {
    if s.pending == map[] then SameAs(s, Run(c, ops))
    else ops != [] && JustChecked(c, s, ops[|ops| - 1]) && SameAs(s, Run(c, ops[..|ops| - 1]))
  }

  ghost predicate JustChecked(c: Spec, s: Shared, op: Op) {
    op.Add? && OnTime(c, op.r, op.now) && exists t :: s.pending == map[t := op.r]
  }

  lemma {:induction false} RunSnoc(c: Spec, ops: seq<Op>, op: Op)
    ensures Run(c, ops + [op]) == Step(c, Run(c, ops), op)
  {
    assert (ops + [op])[..|ops|] == ops;
  }

  lemma CatchUpdate(c: Spec, s: Shared, t: int, r: SensorReading, now: Instant, h: Log)
    requires s.pending == map[t := r] && OnTime(c, r, now) && SameAs(s, h)
    ensures Next(c, s, Update(t)).pending == map[] && SameAs(Next(c, s, Update(t)), Step(c, h, Add(r, now)))
  {
    hide OnTime, Store;
    assert s.pending - {t} == map[];
  }

  lemma CatchCheck(c: Spec, s: Shared, t: int, r: SensorReading, now: Instant, h: Log)
    requires s.pending == map[] && SameAs(s, h)
    ensures var u := Next(c, s, Check(t, r, now));
            if OnTime(c, r, now) then u.pending == map[t := r] && t in u.pending && SameAs(u, h)
            else u.pending == map[] && SameAs(u, Step(c, h, Add(r, now)))
  {
    hide OnTime, Store;
  }

  lemma CatchUp(c: Spec, s: Shared, l: Label, ops: seq<Op>)
    requires Catching(c, s, ops) && (s.pending != map[] ==> l.Update? && l.thread in s.pending)
    ensures Catching(c, Next(c, s, l), ops + OpsOf(l))
  {
    hide OnTime, Next, Step, Run, SameAs;
    if s.pending != map[] {
      var n := |ops| - 1;
      var t :| s.pending == map[t := ops[n].r];
      CatchUpdate(c, s, t, ops[n].r, ops[n].now, Run(c, ops[..n]));
      RunSnoc(c, ops[..n], ops[n]);
      assert ops[..n] + [ops[n]] == ops && ops + [] == ops;
    } else {
      match l
      case Check(t, r, now) =>
        CatchCheck(c, s, t, r, now, Run(c, ops));
        RunSnoc(c, ops, Add(r, now));
        assert (ops + [Add(r, now)])[..|ops|] == ops;
      case Update(t) =>
        NoUpdate(c, s, t);
        assert ops + [] == ops;
      case Flush(now) =>
        FlushIsClose(c, s, Run(c, ops), now);
        RunSnoc(c, ops, Close(now));
    }
  }

  lemma NoUpdate(c: Spec, s: Shared, t: int)
    requires s.pending == map[]
    ensures Next(c, s, Update(t)) == s
  {
  }

  /** ADJACENT INTERLEAVINGS ARE SERIAL. Whatever threads it uses, an interleaving that keeps check and update
      together leaves just what its own operations, with their own clocks, leave when run one by one. */
  lemma {:induction false} AdjacentIsSerial(c: Spec, ls: seq<Label>)
    requires Adjacent(c, ls)
    ensures Catching(c, Interleave(c, ls), Ops(ls))
  {
    hide Next, Catching;
    if ls == [] {
      StartCatches(c);
    } else {
      var before, l := ls[..|ls| - 1], ls[|ls| - 1];
      assert Adjacent(c, before) by {
        assert forall n :: 0 <= n < |before| ==> before[..n] == ls[..n];
      }
      AdjacentIsSerial(c, before);
      CatchUp(c, Interleave(c, before), l, Ops(before));
    }
  }

  lemma StartCatches(c: Spec)
    ensures Catching(c, START, [])
  {
  }

  lemma {:induction false} AdjacentSnoc(c: Spec, ls: seq<Label>, l: Label)
    requires Adjacent(c, ls)
    requires Interleave(c, ls).pending != map[] ==> l.Update? && l.thread in Interleave(c, ls).pending
    ensures Adjacent(c, ls + [l])
  {
    hide Interleave;
    assert (ls + [l])[..|ls|] == ls;
    assert forall n :: 0 <= n < |ls| ==> (ls + [l])[..n] == ls[..n];
  }

  lemma {:induction false} OpsSnoc(ls: seq<Label>, l: Label)
    ensures Ops(ls + [l]) == Ops(ls) + OpsOf(l)
  {
    assert (ls + [l])[..|ls|] == ls;
  }

  /** The labels of one more operation begin just that one. */
  lemma {:induction false} OpsOfLast(ops: seq<Op>)
    requires ops != []
    ensures Ops(Serialize(ops)) == Ops(Serialize(ops[..|ops| - 1])) + [ops[|ops| - 1]]
  {
    hide Ops;
    var before := Serialize(ops[..|ops| - 1]);
    match ops[|ops| - 1]
    case Add(r, now) =>
      OpsSnoc(before, Check(0, r, now));
      OpsSnoc(before + [Check(0, r, now)], Update(0));
      hide Serialize;
      assert Ops(before) + [Add(r, now)] + [] == Ops(before) + [Add(r, now)];
    case Close(now) =>
      OpsSnoc(before, Flush(now));
  }

  lemma {:induction false} OpsOfSerial(ops: seq<Op>)
    ensures Ops(Serialize(ops)) == ops
  {
    hide Ops, Serialize;
    if ops == [] {
      NoOps();
    } else {
      OpsOfLast(ops);
      OpsOfSerial(ops[..|ops| - 1]);
      InitAndLast(ops);
    }
  }

  lemma {:induction false} NoOps()
    ensures Ops(Serialize([])) == []
  {
  }

  lemma InitAndLast<T>(xs: seq<T>)
    requires xs != []
    ensures xs[..|xs| - 1] + [xs[|xs| - 1]] == xs
  {
  }

  /** SERIAL RUNS ARE ADJACENT INTERLEAVINGS, of exactly their operations. */
  lemma {:induction false} SerialIsAdjacent(c: Spec, ops: seq<Op>)
    ensures Adjacent(c, Serialize(ops)) && Ops(Serialize(ops)) == ops
  {
    OpsOfSerial(ops);
    hide Ops, Adjacent, Interleave;
    if ops != [] {
      var n := |ops| - 1;
      var before := Serialize(ops[..n]);
      SerialIsAdjacent(c, ops[..n]);
      SerialRuns(c, ops[..n]);
      match ops[n]
      case Add(r, now) =>
        AdjacentSnoc(c, before, Check(0, r, now));
        InterleaveSnoc(c, before, Check(0, r, now));
        OnlyCheckWaits(c, Interleave(c, before), r, now);
        hide Next;
        AdjacentSnoc(c, before + [Check(0, r, now)], Update(0));
      case Close(now) =>
        AdjacentSnoc(c, before, Flush(now));
    } else {
      NoneAdjacent(c);
    }
  }

  lemma {:induction false} NoneAdjacent(c: Spec)
    ensures Adjacent(c, [])
  {
  }

  lemma OnlyCheckWaits(c: Spec, s: Shared, r: SensorReading, now: Instant)
    requires s.pending == map[]
    ensures Next(c, s, Check(0, r, now)).pending != map[] ==> 0 in Next(c, s, Check(0, r, now)).pending
  {
  }

  lemma {:induction false} RacyOps(r: SensorReading, now: Instant, late: Instant)
    ensures Ops([] + [Check(1, r, now)] + [Update(1)] + [Check(1, r, now)] + [Flush(late)] + [Update(1)] + [Flush(late)])
         == [Add(r, now), Add(r, now), Close(late), Close(late)]
  {
    var l1 := [] + [Check(1, r, now)];
    OpsSnoc([], Check(1, r, now));
    OpsSnoc(l1, Update(1));
    OpsSnoc(l1 + [Update(1)], Check(1, r, now));
    OpsSnoc(l1 + [Update(1)] + [Check(1, r, now)], Flush(late));
    OpsSnoc(l1 + [Update(1)] + [Check(1, r, now)] + [Flush(late)], Update(1));
    OpsSnoc(l1 + [Update(1)] + [Check(1, r, now)] + [Flush(late)] + [Update(1)], Flush(late));
  }

  /** OTHERS ARE NOT. The run that emits a window twice does not leave what its operations leave one by one. */
  lemma {:induction false} RacyIsNotSerial(c: Spec, r: SensorReading, now: Instant) returns (ls: seq<Label>)
    requires WholeSeconds(c) && OnTime(c, r, now)
    ensures Clocked(ls) && Interleave(c, ls).pending == map[] && !SameAs(Interleave(c, ls), Run(c, Ops(ls)))
  {
    hide Interleave, Run, Deadline, OnTime, KeyOf, Ops, WindowOf, Summarizes;
    ls := WindowEmittedTwice(c, r, now);
    NothingWaits(c, r, now, Deadline(c, KeyOf(c, r)));
    RacyOps(r, now, Deadline(c, KeyOf(c, r)));
    assert ClockedOps(Ops(ls));
    SerialRunsAreBatch(c, Ops(ls), KeyOf(c, r));
  }

  lemma {:induction false} NothingWaits(c: Spec, r: SensorReading, now: Instant, late: Instant)
    ensures Interleave(c, [] + [Check(1, r, now)] + [Update(1)] + [Check(1, r, now)] + [Flush(late)] + [Update(1)] + [Flush(late)]).pending
         == map[]
  {
    var l1 := [] + [Check(1, r, now)];
    var l2 := l1 + [Update(1)];
    var l3 := l2 + [Check(1, r, now)];
    var l4 := l3 + [Flush(late)];
    InterleaveSnoc(c, [], Check(1, r, now));
    InterleaveSnoc(c, l1, Update(1));
    InterleaveSnoc(c, l2, Check(1, r, now));
    InterleaveSnoc(c, l3, Flush(late));
    InterleaveSnoc(c, l4, Update(1));
    InterleaveSnoc(c, l4 + [Update(1)], Flush(late));
    hide OnTime, KeyOf, Push, Deadline;
    assert Interleave(c, l2).pending == map[];
    assert Interleave(c, l4 + [Update(1)]).pending == map[];
  }
}
