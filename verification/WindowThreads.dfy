/** The aggregator as its goroutines really interleave: `Add` checks lateness before it takes the
    lock, so a flush can fall between the check and the update, and every call reads its own clock. */
module WindowThreads {
  import opened Events
  import opened Windows

  /** One flush: when, and what it emitted. */
  datatype Harvest = Harvest(now: Instant, windows: map<int, Agg>)

  /** `pending` holds the readings that passed their check and wait for the lock, by thread;
      `stored` and `completed` are history. */
  datatype Shared = Shared(
    state: TState, pending: map<int, SensorReading>, harvests: seq<Harvest>, stored: seq<SensorReading>, completed: nat)

  datatype Label = Check(thread: int, r: SensorReading, now: Instant) | Update(thread: int) | Flush(now: Instant)

  const START: Shared := Shared(TState(map[], 0), map[], [], [], 0)

  function Next(c: Spec, s: Shared, l: Label): Shared {
    match l
    case Check(thread, r, now) =>
      if thread in s.pending then s
      else if OnTime(c, r, now) then s.(pending := s.pending[thread := r])
      else s.(state := s.state.(late := s.state.late + 1), completed := s.completed + 1)
    case Update(thread) =>
      if thread !in s.pending then s
      else
        var r := s.pending[thread];
        s.(state := Store(c, s.state, r), pending := s.pending - {thread},
           stored := s.stored + [r], completed := s.completed + 1)
    case Flush(now) =>
      s.(state := Kept(c, s.state, now), harvests := s.harvests + [Harvest(now, Harvested(c, s.state, now))])
  }

  function Interleave(c: Spec, ls: seq<Label>): Shared {
    if ls == [] then START else Next(c, Interleave(c, ls[..|ls| - 1]), ls[|ls| - 1])
  }

  lemma {:induction false} InterleaveSnoc(c: Spec, ls: seq<Label>, l: Label)
    ensures Interleave(c, ls + [l]) == Next(c, Interleave(c, ls), l)
  {
    assert (ls + [l])[..|ls|] == ls;
  }

  /** AN ADD IS STORED OR LATE. The check and the update of a thread that is not already waiting complete one add: on
      time the reading is stored as the latest, otherwise it is counted late. */
  lemma AddIsStoredOrLate(c: Spec, s: Shared, thread: int, r: SensorReading, now: Instant)
    requires thread !in s.pending
    ensures var t := Next(c, Next(c, s, Check(thread, r, now)), Update(thread));
            && t.completed == s.completed + 1 && t.harvests == s.harvests
            && (forall x :: (x in t.pending <==> x in s.pending) && (x in s.pending ==> t.pending[x] == s.pending[x]))
            && t.state == AddTo(c, s.state, r, now)
            && t.stored == if OnTime(c, r, now) then s.stored + [r] else s.stored
  {
    hide OnTime, Store;
  }

  // ----- Window by window -----

  /** Two pieces of one window put together. */
  function Merge(a: Option<Agg>, b: Option<Agg>): Option<Agg> {
    match (a, b)
    case (None, _) => b
    case (_, None) => a
    case (Some(x), Some(y)) =>
      Some(Agg(x.sum + y.sum, x.count + y.count,
               if y.min < x.min then y.min else x.min, if y.max > x.max then y.max else x.max))
  }

  /** All that was emitted of window `k`. */
  function Emitted(hs: seq<Harvest>, k: int): Option<Agg> {
    if hs == [] then None else Merge(Emitted(hs[..|hs| - 1], k), Lookup(hs[|hs| - 1].windows, k))
  }

  /** The emitted pieces and the open bucket of window `k` together summarize its stored readings. */
  ghost predicate Accounted(c: Spec, s: Shared, k: int) {
    var xs := WindowOf(c, s.stored, k);
    match Merge(Emitted(s.harvests, k), Lookup(s.state.buckets, k))
    case None => xs == []
    case Some(a) => Summarizes(a, xs)
  }

  lemma MergePush(e: Option<Agg>, b: Option<Agg>, x: real)
    ensures Merge(e, Some(Push(b, x))) == Some(Push(Merge(e, b), x))
  {
  }

  lemma {:induction false} WindowAfterStore(c: Spec, rs: seq<SensorReading>, r: SensorReading, k: int)
    ensures WindowOf(c, rs + [r], k) == if KeyOf(c, r) == k then WindowOf(c, rs, k) + [r.tempC] else WindowOf(c, rs, k)
  {
    assert (rs + [r])[..|rs|] == rs;
  }

  lemma {:induction false} EmittedAfterFlush(hs: seq<Harvest>, h: Harvest, k: int)
    ensures Emitted(hs + [h], k) == Merge(Emitted(hs, k), Lookup(h.windows, k))
  {
    assert (hs + [h])[..|hs|] == hs;
  }

  lemma UpdateAccounts(c: Spec, s: Shared, thread: int, k: int)
    requires Accounted(c, s, k) && thread in s.pending
    ensures Accounted(c, Next(c, s, Update(thread)), k)
  {
    hide KeyOf, Push, Merge, Emitted, WindowOf, Summarizes;
    var r, b, e := s.pending[thread], Lookup(s.state.buckets, k), Emitted(s.harvests, k);
    WindowAfterStore(c, s.stored, r, k);
    if KeyOf(c, r) == k {
      PushSummarizes(Merge(e, b), WindowOf(c, s.stored, k), r.tempC);
      MergePush(e, b, r.tempC);
    }
  }

  lemma FlushAccounts(c: Spec, s: Shared, now: Instant, k: int)
    requires Accounted(c, s, k)
    ensures Accounted(c, Next(c, s, Flush(now)), k)
  {
    hide Deadline, WindowOf, Summarizes, Emitted;
    EmittedAfterFlush(s.harvests, Harvest(now, Harvested(c, s.state, now)), k);
  }

  /** CONSERVATION PER WINDOW. For any number of threads, any clocks and any interleaving, a window's
      open bucket and emitted aggregates together have the number, the sum and the extremes of the
      readings stored for it. */
  lemma {:induction false} NothingLostPerWindow(c: Spec, ls: seq<Label>, k: int)
    ensures Accounted(c, Interleave(c, ls), k)
  {
    if ls != [] {
      hide Next, Accounted;
      var s, l := Interleave(c, ls[..|ls| - 1]), ls[|ls| - 1];
      NothingLostPerWindow(c, ls[..|ls| - 1], k);
      AccountedStep(c, s, l, k);
    } else {
      assert Accounted(c, START, k);
    }
  }

  lemma AccountedStep(c: Spec, s: Shared, l: Label, k: int)
    requires Accounted(c, s, k)
    ensures Accounted(c, Next(c, s, l), k)
  {
    match l
    case Check(_, _, _) =>
      hide OnTime, Summarizes, Emitted, Merge, WindowOf;
    case Update(thread) =>
      if thread in s.pending { UpdateAccounts(c, s, thread, k); }
    case Flush(now) =>
      FlushAccounts(c, s, now, k);
  }

  // ----- All windows together -----

  /** The readings counted in the buckets named by `ks`. */
  ghost function TotalOver(m: map<int, Agg>, ks: set<int>): nat
    requires ks <= m.Keys
  {
    if exists k :: k in ks then
      var k :| k in ks;
      m[k].count + TotalOver(m, ks - {k})
    else 0
  }

  ghost function Total(m: map<int, Agg>): nat {
    TotalOver(m, m.Keys)
  }

  lemma {:induction false} TotalWithout(m: map<int, Agg>, ks: set<int>, k: int)
    requires k in ks && ks <= m.Keys
    ensures TotalOver(m, ks) == m[k].count + TotalOver(m, ks - {k})
    decreases |ks|
  {
    var x :| x in ks && TotalOver(m, ks) == m[x].count + TotalOver(m, ks - {x});
    if x != k {
      TotalWithout(m, ks - {x}, k);
      TotalWithout(m, ks - {k}, x);
      assert ks - {x} - {k} == ks - {k} - {x};
    }
  }

  lemma {:induction false} TotalAgrees(m: map<int, Agg>, n: map<int, Agg>, ks: set<int>, ls: set<int>)
    requires ks <= m.Keys && ls <= n.Keys
    requires forall k :: (k in ks <==> k in ls) && (k in ks ==> m[k] == n[k])
    ensures TotalOver(m, ks) == TotalOver(n, ls)
    decreases |ks|
  {
    if k :| k in ks {
      TotalWithout(m, ks, k);
      TotalWithout(n, ls, k);
      TotalAgrees(m, n, ks - {k}, ls - {k});
    }
  }

  lemma {:induction false} TotalOfUnion(m: map<int, Agg>, a: set<int>, b: set<int>)
    requires a + b <= m.Keys && a !! b
    ensures TotalOver(m, a + b) == TotalOver(m, a) + TotalOver(m, b)
    decreases |a|
  {
    if k :| k in a {
      TotalWithout(m, a, k);
      TotalWithout(m, a + b, k);
      assert a + b - {k} == (a - {k}) + b;
      TotalOfUnion(m, a - {k}, b);
    } else {
      TotalAgrees(m, m, a + b, b);
    }
  }

  lemma TotalAfterPush(m: map<int, Agg>, k: int, x: real)
    ensures Total(m[k := Push(Lookup(m, k), x)]) == Total(m) + 1
  {
    var n, others := m[k := Push(Lookup(m, k), x)], m.Keys - {k};
    TotalWithout(n, n.Keys, k);
    TotalAgrees(m, n, others, n.Keys - {k});
    if k in m {
      TotalWithout(m, m.Keys, k);
    } else {
      assert others == m.Keys;
    }
  }

  lemma TotalSplits(m: map<int, Agg>, a: map<int, Agg>, b: map<int, Agg>)
    requires m == a + b && a.Keys !! b.Keys
    ensures Total(m) == Total(a) + Total(b)
  {
    assert m.Keys == a.Keys + b.Keys;
    TotalOfUnion(m, a.Keys, b.Keys);
    TotalAgrees(m, a, a.Keys, a.Keys);
    TotalAgrees(m, b, b.Keys, b.Keys);
  }

  ghost function EmittedTotal(hs: seq<Harvest>): nat {
    if hs == [] then 0 else EmittedTotal(hs[..|hs| - 1]) + Total(hs[|hs| - 1].windows)
  }

  lemma ConservationStep(c: Spec, s: Shared, l: Label)
    requires s.completed == s.state.late + EmittedTotal(s.harvests) + Total(s.state.buckets)
    ensures var t := Next(c, s, l); t.completed == t.state.late + EmittedTotal(t.harvests) + Total(t.state.buckets)
  {
    hide TotalOver, Push, KeyOf, Deadline;
    var t := Next(c, s, l);
    if l.Update? && l.thread in s.pending {
      TotalAfterPush(s.state.buckets, KeyOf(c, s.pending[l.thread]), s.pending[l.thread].tempC);
    } else if l.Flush? {
      var a, b := Harvested(c, s.state, l.now), Kept(c, s.state, l.now).buckets;
      assert s.state.buckets == a + b;
      TotalSplits(s.state.buckets, a, b);
      assert t.harvests[..|s.harvests|] == s.harvests;
    }
  }

  /** CONSERVATION. Completed adds are the late ones, the emitted ones and the open ones, in every
      interleaving. */
  lemma {:induction false} EveryAddIsAccountedFor(c: Spec, ls: seq<Label>)
    ensures var s := Interleave(c, ls);
            s.completed == s.state.late + EmittedTotal(s.harvests) + Total(s.state.buckets)
  {
    if ls != [] {
      EveryAddIsAccountedFor(c, ls[..|ls| - 1]);
      ConservationStep(c, Interleave(c, ls[..|ls| - 1]), ls[|ls| - 1]);
    }
  }

  // ----- What the interleaving costs -----

  /** A WINDOW CAN BE EMITTED TWICE, with a single thread adding. Of two readings that pass their check in time
      one is stored before the flush at the deadline, the other only after it. */
  lemma WindowEmittedTwice(c: Spec, r: SensorReading, now: Instant) returns (ls: seq<Label>)
    requires WholeSeconds(c) && OnTime(c, r, now)
    ensures var late := Flush(Deadline(c, KeyOf(c, r)));
            ls == [] + [Check(1, r, now)] + [Update(1)] + [Check(1, r, now)] + [late] + [Update(1)] + [late]
    ensures var hs := Interleave(c, ls).harvests;
            |hs| == 2 && KeyOf(c, r) in hs[0].windows && KeyOf(c, r) in hs[1].windows
  {
    var k := KeyOf(c, r);
    var late := Deadline(c, k);
    ls := [];
    InterleaveSnoc(c, ls, Check(1, r, now));
    ls := ls + [Check(1, r, now)];
    InterleaveSnoc(c, ls, Update(1));
    ls := ls + [Update(1)];
    assert Interleave(c, ls).pending == map[] && Interleave(c, ls).harvests == [];
    InterleaveSnoc(c, ls, Check(1, r, now));
    ls := ls + [Check(1, r, now)];
    assert Interleave(c, ls).pending == map[1 := r] && k in Interleave(c, ls).state.buckets;
    InterleaveSnoc(c, ls, Flush(late));
    ls := ls + [Flush(late)];
    assert |Interleave(c, ls).harvests| == 1 && k in Interleave(c, ls).harvests[0].windows;
    InterleaveSnoc(c, ls, Update(1));
    ls := ls + [Update(1)];
    InterleaveSnoc(c, ls, Flush(late));
    ls := ls + [Flush(late)];
  }
}
