/** When the aggregator's threads get away without a lock around check and update: exactly which
    interleavings emit every window once, and on time, and compute the batch group-by. */
module WindowRaces {
  import opened Events
  import opened Windows
  import opened WindowThreads

  /** No check or flush after a flush goes by an earlier clock reading than that flush did. A flush may
      have read its clock long before it got the lock, so checks may be ahead of a later flush. */
  ghost predicate Clocked(ls: seq<Label>) {
    forall i, j :: 0 <= i <= j < |ls| && ls[i].Flush? && !ls[j].Update? ==> ls[i].now <= ls[j].now
  }

  /** A flush that emits the window of a reading still waiting for the lock. */
  ghost predicate Races(c: Spec, s: Shared, l: Label) {
    l.Flush? && exists t :: t in s.pending && RacesWith(c, s, l.now, t)
  }

  ghost predicate RacesWith(c: Spec, s: Shared, now: Instant, t: int)
    requires t in s.pending
  {
    var k := KeyOf(c, s.pending[t]);
    k in s.state.buckets && Deadline(c, k) <= now
  }

  ghost predicate RaceFree(c: Spec, ls: seq<Label>) {
    forall n :: 0 <= n < |ls| ==> !Races(c, Interleave(c, ls[..n]), ls[n])
  }

  /** A flush at or after the deadline of a reading still waiting for the lock strands that reading. */
  ghost predicate Strands(c: Spec, s: Shared, l: Label) {
    l.Flush? && exists t :: t in s.pending && Deadline(c, KeyOf(c, s.pending[t])) <= l.now
  }

  ghost predicate Guarded(c: Spec, ls: seq<Label>) {
    forall n :: 0 <= n < |ls| ==> !Strands(c, Interleave(c, ls[..n]), ls[n])
  }

  ghost predicate Flushed(s: Shared, k: int) {
    exists j :: 0 <= j < |s.harvests| && k in s.harvests[j].windows
  }

  ghost predicate EmittedOnce(s: Shared) {
    forall i, j, k :: 0 <= i < j < |s.harvests| && k in s.harvests[i].windows ==> k !in s.harvests[j].windows
  }

  /** No open window has been flushed before. */
  ghost predicate Separate(s: Shared) {
    EmittedOnce(s) && forall k :: k in s.state.buckets ==> !Flushed(s, k)
  }

  /** Nor has the window of any waiting reading. */
  ghost predicate Clean(c: Spec, s: Shared) {
    forall t :: t in s.pending ==> !Flushed(s, KeyOf(c, s.pending[t]))
  }

  /** Nothing is emitted before its deadline, and no flush is later than the clock. */
  ghost predicate Due(c: Spec, s: Shared, clock: Instant) {
    forall j :: 0 <= j < |s.harvests| ==>
      s.harvests[j].now <= clock && forall k :: k in s.harvests[j].windows ==> Deadline(c, k) <= s.harvests[j].now
  }

  /** Every bucket, open or flushed, summarizes the batch window of its key, and every nonempty
      batch window has one. */
  ghost predicate Batched(c: Spec, s: Shared) {
    && (forall k :: k in s.state.buckets ==> Summarizes(s.state.buckets[k], WindowOf(c, s.stored, k)))
    && (forall j, k :: 0 <= j < |s.harvests| && k in s.harvests[j].windows ==>
          Summarizes(s.harvests[j].windows[k], WindowOf(c, s.stored, k)))
    && (forall k :: WindowOf(c, s.stored, k) != [] ==> k in s.state.buckets || Flushed(s, k))
  }

  /** Windows are flushed by the first flush at or after their deadline. */
  ghost predicate Prompt(c: Spec, s: Shared) {
    && (forall i, j, k :: 0 <= i < j < |s.harvests| && k in s.harvests[j].windows ==> s.harvests[i].now < Deadline(c, k))
    && (forall i, k :: 0 <= i < |s.harvests| && k in s.state.buckets ==> s.harvests[i].now < Deadline(c, k))
  }

  /** No flush so far has reached the deadline of a waiting reading. */
  ghost predicate Ahead(c: Spec, s: Shared) {
    forall i, t :: 0 <= i < |s.harvests| && t in s.pending ==> s.harvests[i].now < Deadline(c, KeyOf(c, s.pending[t]))
  }

  // ----- One step -----

  /** A reading on time finds its window's deadline ahead. */
  lemma OnTimeIsAhead(c: Spec, r: SensorReading, now: Instant)
    requires WholeSeconds(c)
    ensures OnTime(c, r, now) <==> now < Deadline(c, KeyOf(c, r))
  {
    WholeStart(c, r.time);
  }

  lemma DueStep(c: Spec, s: Shared, l: Label, clock: Instant)
    requires Due(c, s, clock) && (l.Flush? ==> l.now <= clock)
    ensures Due(c, Next(c, s, l), clock)
  {
    hide Deadline, OnTime, KeyOf, Push;
  }

  lemma CheckKeepsClean(c: Spec, s: Shared, thread: int, r: SensorReading, now: Instant)
    requires WholeSeconds(c) && Due(c, s, now) && Clean(c, s)
    ensures Clean(c, Next(c, s, Check(thread, r, now)))
  {
    OnTimeIsAhead(c, r, now);
    hide Deadline, OnTime, KeyOf;
    var t := Next(c, s, Check(thread, r, now));
    assert t.harvests == s.harvests;
    forall k ensures Flushed(t, k) == Flushed(s, k) {
    }
    assert OnTime(c, r, now) ==> !Flushed(s, KeyOf(c, r));
  }

  /** Only updates open windows, and they open those of waiting readings. */
  lemma UpdateKeepsSeparate(c: Spec, s: Shared, thread: int)
    requires Separate(s) && Clean(c, s)
    ensures Separate(Next(c, s, Update(thread))) && Clean(c, Next(c, s, Update(thread)))
  {
    hide KeyOf, Push;
    var t := Next(c, s, Update(thread));
    assert t.harvests == s.harvests;
    forall k ensures Flushed(t, k) == Flushed(s, k) {
    }
  }

  lemma FlushedAfter(c: Spec, s: Shared, now: Instant, k: int)
    ensures Flushed(Next(c, s, Flush(now)), k) <==> Flushed(s, k) || k in Harvested(c, s.state, now)
  {
    hide Harvested, Kept;
    var t := Next(c, s, Flush(now));
    assert t.harvests[|s.harvests|] == Harvest(now, Harvested(c, s.state, now));
    assert forall j :: 0 <= j < |s.harvests| ==> t.harvests[j] == s.harvests[j];
  }

  lemma FlushKeepsSeparate(c: Spec, s: Shared, now: Instant)
    requires Separate(s)
    ensures Separate(Next(c, s, Flush(now)))
  {
    hide Deadline;
    var t, n := Next(c, s, Flush(now)), |s.harvests|;
    assert forall j :: 0 <= j < n ==> t.harvests[j] == s.harvests[j];
    forall i, j, k | 0 <= i < j < |t.harvests| && k in t.harvests[i].windows ensures k !in t.harvests[j].windows {
      if j == n { assert Flushed(s, k); }
    }
    forall k | k in t.state.buckets ensures !Flushed(t, k) {
      FlushedAfter(c, s, now, k);
    }
  }

  lemma FlushKeepsClean(c: Spec, s: Shared, now: Instant)
    requires Clean(c, s) && !Races(c, s, Flush(now))
    ensures Clean(c, Next(c, s, Flush(now)))
  {
    hide Deadline, KeyOf, Flushed;
    var t := Next(c, s, Flush(now));
    forall th | th in t.pending ensures !Flushed(t, KeyOf(c, t.pending[th])) {
      FlushedAfter(c, s, now, KeyOf(c, t.pending[th]));
      assert !RacesWith(c, s, now, th);
    }
  }

  lemma SeparateStep(c: Spec, s: Shared, l: Label)
    requires WholeSeconds(c) && Separate(s) && Clean(c, s) && !Races(c, s, l)
    requires l.Check? ==> Due(c, s, l.now)
    ensures Separate(Next(c, s, l)) && Clean(c, Next(c, s, l))
  {
    match l
    case Check(thread, r, now) =>
      CheckKeepsClean(c, s, thread, r, now);
      CheckKeepsSeparate(c, s, thread, r, now);
    case Update(thread) =>
      UpdateKeepsSeparate(c, s, thread);
    case Flush(now) =>
      FlushKeepsSeparate(c, s, now);
      FlushKeepsClean(c, s, now);
  }

  lemma CheckKeepsSeparate(c: Spec, s: Shared, thread: int, r: SensorReading, now: Instant)
    requires Separate(s)
    ensures Separate(Next(c, s, Check(thread, r, now)))
  {
    var t := Next(c, s, Check(thread, r, now));
    assert t.harvests == s.harvests && t.state.buckets == s.state.buckets;
    forall k ensures Flushed(t, k) == Flushed(s, k) {
    }
  }

  // ----- The batch group-by -----

  lemma UpdateKeepsBatch(c: Spec, s: Shared, thread: int)
    requires Batched(c, s) && Separate(s) && Clean(c, s) && thread in s.pending
    ensures Batched(c, Next(c, s, Update(thread)))
  {
    hide KeyOf, Push, Summarizes, WindowOf, EmittedOnce;
    var t, r := Next(c, s, Update(thread)), s.pending[thread];
    var key := KeyOf(c, r);
    assert t.harvests == s.harvests && t.stored == s.stored + [r];
    assert t.state.buckets == s.state.buckets[key := Push(Lookup(s.state.buckets, key), r.tempC)];
    forall k | k in t.state.buckets ensures Summarizes(t.state.buckets[k], WindowOf(c, t.stored, k)) {
      WindowAfterStore(c, s.stored, r, k);
      if k == key {
        PushSummarizes(Lookup(s.state.buckets, key), WindowOf(c, s.stored, key), r.tempC);
      }
    }
    forall j, k | 0 <= j < |t.harvests| && k in t.harvests[j].windows
      ensures Summarizes(t.harvests[j].windows[k], WindowOf(c, t.stored, k))
    {
      WindowAfterStore(c, s.stored, r, k);
      assert Flushed(s, k) && k != key;
    }
    forall k | WindowOf(c, t.stored, k) != [] ensures k in t.state.buckets || Flushed(t, k) {
      WindowAfterStore(c, s.stored, r, k);
      if k != key {
        assert k in s.state.buckets || Flushed(s, k);
      }
    }
  }

  lemma FlushKeepsBatch(c: Spec, s: Shared, now: Instant)
    requires Batched(c, s)
    ensures Batched(c, Next(c, s, Flush(now)))
  {
    hide Deadline, Summarizes, WindowOf;
    var t, n := Next(c, s, Flush(now)), |s.harvests|;
    assert forall j :: 0 <= j < n ==> t.harvests[j] == s.harvests[j];
    forall k | WindowOf(c, t.stored, k) != [] ensures k in t.state.buckets || Flushed(t, k) {
      FlushedAfter(c, s, now, k);
    }
  }

  lemma CheckKeepsBatch(c: Spec, s: Shared, thread: int, r: SensorReading, now: Instant)
    requires Batched(c, s)
    ensures Batched(c, Next(c, s, Check(thread, r, now)))
  {
    hide OnTime, Summarizes, WindowOf;
    var t := Next(c, s, Check(thread, r, now));
    assert t.harvests == s.harvests && t.state.buckets == s.state.buckets && t.stored == s.stored;
    forall k ensures Flushed(t, k) == Flushed(s, k) {
    }
  }

  lemma BatchStep(c: Spec, s: Shared, l: Label)
    requires Batched(c, s) && Separate(s) && Clean(c, s)
    ensures Batched(c, Next(c, s, l))
  {
    match l
    case Check(thread, r, now) => CheckKeepsBatch(c, s, thread, r, now);
    case Update(thread) => if thread in s.pending { UpdateKeepsBatch(c, s, thread); }
    case Flush(now) => FlushKeepsBatch(c, s, now);
  }

  /** What a race-free run has kept when its clock has reached `clock`. */
  ghost predicate Inv(c: Spec, s: Shared, clock: Instant) {
    Due(c, s, clock) && Separate(s) && Clean(c, s) && Batched(c, s)
  }

  lemma {:induction false} InvAlways(c: Spec, ls: seq<Label>, clock: Instant)
    requires WholeSeconds(c) && Clocked(ls) && RaceFree(c, ls)
    requires forall i :: 0 <= i < |ls| && ls[i].Flush? ==> ls[i].now <= clock
    ensures Inv(c, Interleave(c, ls), clock)
  {
    hide Next, Races, Due, Separate, Clean, Batched;
    if ls == [] {
      EmptyInv(c, clock);
    } else {
      var before, l := ls[..|ls| - 1], ls[|ls| - 1];
      var s := Interleave(c, before);
      assert RaceFree(c, before) by {
        forall n | 0 <= n < |before| ensures !Races(c, Interleave(c, before[..n]), before[n]) {
          assert before[..n] == ls[..n];
        }
      }
      InvAlways(c, before, clock);
      if l.Check? { InvAlways(c, before, l.now); }
      SeparateStep(c, s, l);
      BatchStep(c, s, l);
      DueStep(c, s, l, clock);
    }
  }

  lemma EmptyInv(c: Spec, clock: Instant)
    ensures Inv(c, START, clock)
  {
  }

  /** The clock of the last flush. */
  function Latest(ls: seq<Label>): Instant {
    if ls == [] then 0
    else if ls[|ls| - 1].Flush? then ls[|ls| - 1].now
    else Latest(ls[..|ls| - 1])
  }

  lemma {:induction false} LatestBounds(ls: seq<Label>)
    requires Clocked(ls)
    ensures forall i :: 0 <= i < |ls| && ls[i].Flush? ==> ls[i].now <= Latest(ls)
  {
    if ls != [] && !ls[|ls| - 1].Flush? {
      LatestBounds(ls[..|ls| - 1]);
    }
  }

  /** STREAMING EQUALS BATCH, FOR ANY THREADS. After a race-free interleaving the open buckets and the emitted
      windows are the group-by of the stored readings: one summary per nonempty window, no others, none
      twice. */
  lemma {:induction false} StreamingIsBatch(c: Spec, ls: seq<Label>, k: int)
    requires WholeSeconds(c) && Clocked(ls) && RaceFree(c, ls)
    ensures var s := Interleave(c, ls); var xs := WindowOf(c, s.stored, k);
            && (xs != [] <==> k in s.state.buckets || Flushed(s, k))
            && !(k in s.state.buckets && Flushed(s, k))
            && (k in s.state.buckets ==> Summarizes(s.state.buckets[k], xs))
            && (forall j :: 0 <= j < |s.harvests| && k in s.harvests[j].windows ==> Summarizes(s.harvests[j].windows[k], xs))
            && EmittedOnce(s)
  {
    LatestBounds(ls);
    InvAlways(c, ls, Latest(ls));
    hide Interleave, WindowOf, Deadline;
  }

  // ----- Exactly the race-free runs -----

  /** One more reading, and one more flush at the same instant. */
  ghost predicate StaysOnce(c: Spec, ls: seq<Label>, n: nat, t: int) {
    0 < n <= |ls| && ls[n - 1].Flush? ==>
      EmittedOnce(Next(c, Next(c, Interleave(c, ls[..n]), Update(t)), Flush(ls[n - 1].now)))
  }

  /** From any state a racing flush, the reading's update and another flush emit the window twice. */
  lemma RaceEmitsTwice(c: Spec, s: Shared, now: Instant, t: int)
    requires t in s.pending && RacesWith(c, s, now, t)
    ensures !EmittedOnce(Next(c, Next(c, Next(c, s, Flush(now)), Update(t)), Flush(now)))
  {
    hide Deadline, KeyOf, Push;
    var k, n := KeyOf(c, s.pending[t]), |s.harvests|;
    var s1 := Next(c, s, Flush(now));
    assert k in s1.harvests[n].windows;
    var s2 := Next(c, s1, Update(t));
    assert k in s2.state.buckets && s2.harvests == s1.harvests;
    var s3 := Next(c, s2, Flush(now));
    assert s3.harvests[n] == s1.harvests[n] && k in s3.harvests[n + 1].windows;
  }

  /** EXACTLY THE RACE-FREE RUNS EMIT ONCE. A clocked run is race-free if and only if after each of its
      flushes no waiting reading, stored and flushed right away, makes a window come out twice. */
  lemma {:induction false} EmitsOnceIffRaceFree(c: Spec, ls: seq<Label>)
    requires WholeSeconds(c) && Clocked(ls)
    ensures RaceFree(c, ls) <==> forall n: nat, t :: StaysOnce(c, ls, n, t)
  {
    hide Next, RacesWith, EmittedOnce, Inv;
    if RaceFree(c, ls) {
      forall n: nat, t ensures StaysOnce(c, ls, n, t) {
        if 0 < n <= |ls| && ls[n - 1].Flush? {
          PrefixInv(c, ls, n);
          StillOnce(c, Interleave(c, ls[..n]), t, ls[n - 1].now);
        }
      }
    } else {
      var n :| 0 <= n < |ls| && Races(c, Interleave(c, ls[..n]), ls[n]);
      var s := Interleave(c, ls[..n]);
      var t :| t in s.pending && RacesWith(c, s, ls[n].now, t);
      RaceEmitsTwice(c, s, ls[n].now, t);
      assert ls[..n + 1][..n] == ls[..n];
      assert !StaysOnce(c, ls, n + 1, t);
    }
  }

  lemma {:induction false} PrefixInv(c: Spec, ls: seq<Label>, n: nat)
    requires WholeSeconds(c) && Clocked(ls) && RaceFree(c, ls) && 0 < n <= |ls| && ls[n - 1].Flush?
    ensures Inv(c, Interleave(c, ls[..n]), ls[n - 1].now)
  {
    hide Races, Interleave, Inv;
    assert RaceFree(c, ls[..n]) by {
      forall m | 0 <= m < n ensures !Races(c, Interleave(c, ls[..n][..m]), ls[..n][m]) {
        assert ls[..n][..m] == ls[..m];
      }
    }
    InvAlways(c, ls[..n], ls[n - 1].now);
  }

  lemma StillOnce(c: Spec, s: Shared, t: int, now: Instant)
    requires Inv(c, s, now)
    ensures EmittedOnce(Next(c, Next(c, s, Update(t)), Flush(now)))
  {
    hide Next, Clean, EmittedOnce;
    UpdateKeepsSeparate(c, s, t);
    FlushKeepsSeparate(c, Next(c, s, Update(t)), now);
  }

  // ----- On time -----

  lemma AheadStep(c: Spec, s: Shared, l: Label)
    requires WholeSeconds(c) && Ahead(c, s) && Prompt(c, s) && !Strands(c, s, l)
    requires l.Check? ==> Due(c, s, l.now)
    ensures Ahead(c, Next(c, s, l)) && Prompt(c, Next(c, s, l))
  {
    match l
    case Check(thread, r, now) =>
      OnTimeIsAhead(c, r, now);
      hide Deadline, OnTime, KeyOf;
    case Update(thread) =>
      hide Deadline, KeyOf, Push;
    case Flush(now) =>
      FlushKeepsPrompt(c, s, now);
      FlushKeepsAhead(c, s, now);
  }

  lemma FlushKeepsPrompt(c: Spec, s: Shared, now: Instant)
    requires Prompt(c, s)
    ensures Prompt(c, Next(c, s, Flush(now)))
  {
    hide Deadline;
    var t, n := Next(c, s, Flush(now)), |s.harvests|;
    assert forall j :: 0 <= j < n ==> t.harvests[j] == s.harvests[j];
  }

  lemma FlushKeepsAhead(c: Spec, s: Shared, now: Instant)
    requires Ahead(c, s) && !Strands(c, s, Flush(now))
    ensures Ahead(c, Next(c, s, Flush(now)))
  {
    hide Deadline, KeyOf;
    var t, n := Next(c, s, Flush(now)), |s.harvests|;
    assert forall j :: 0 <= j < n ==> t.harvests[j] == s.harvests[j];
  }

  lemma {:induction false} PromptAlways(c: Spec, ls: seq<Label>, clock: Instant)
    requires WholeSeconds(c) && Clocked(ls) && Guarded(c, ls)
    requires forall i :: 0 <= i < |ls| && ls[i].Flush? ==> ls[i].now <= clock
    ensures var s := Interleave(c, ls); Due(c, s, clock) && Ahead(c, s) && Prompt(c, s)
  {
    hide Next, Strands, Due, Ahead, Prompt;
    if ls == [] {
      EmptyPrompt(c, clock);
    } else {
      var before, l := ls[..|ls| - 1], ls[|ls| - 1];
      var s := Interleave(c, before);
      assert Guarded(c, before) by {
        forall n | 0 <= n < |before| ensures !Strands(c, Interleave(c, before[..n]), before[n]) {
          assert before[..n] == ls[..n];
        }
      }
      PromptAlways(c, before, clock);
      if l.Check? { PromptAlways(c, before, l.now); }
      AheadStep(c, s, l);
      DueStep(c, s, l, clock);
    }
  }

  lemma EmptyPrompt(c: Spec, clock: Instant)
    ensures Due(c, START, clock) && Ahead(c, START) && Prompt(c, START)
  {
  }

  /** A guarded run is race-free. */
  lemma GuardedIsRaceFree(c: Spec, ls: seq<Label>)
    requires Guarded(c, ls)
    ensures RaceFree(c, ls)
  {
    forall n | 0 <= n < |ls| ensures !Races(c, Interleave(c, ls[..n]), ls[n]) {
      assert !Strands(c, Interleave(c, ls[..n]), ls[n]);
    }
  }

  lemma {:induction false} FirstDueFlush(c: Spec, ls: seq<Label>, j: nat, k: int)
    requires WholeSeconds(c) && Clocked(ls) && Guarded(c, ls)
    requires j < |Interleave(c, ls).harvests| && k in Interleave(c, ls).harvests[j].windows
    ensures var hs := Interleave(c, ls).harvests;
            && Deadline(c, k) <= hs[j].now
            && (forall i :: 0 <= i < j ==> hs[i].now < Deadline(c, k))
            && (forall i :: 0 <= i < |hs| && k in hs[i].windows ==> i == j)
  {
    hide Deadline, KeyOf, Interleave;
    LatestBounds(ls);
    PromptAlways(c, ls, Latest(ls));
    var hs := Interleave(c, ls).harvests;
    forall i | 0 <= i < |hs| && k in hs[i].windows ensures i == j {
      assert Deadline(c, k) <= hs[i].now;
    }
  }

  /** The key of an emitted window is that of a stored reading. */
  lemma {:induction false} EmittedFor(c: Spec, ls: seq<Label>, j: nat, k: int) returns (r: SensorReading)
    requires WholeSeconds(c) && Clocked(ls) && RaceFree(c, ls)
    requires j < |Interleave(c, ls).harvests| && k in Interleave(c, ls).harvests[j].windows
    ensures KeyOf(c, r) == k && r in Interleave(c, ls).stored && Interleave(c, ls).harvests[j].windows[k].count > 0
  {
    hide Interleave, WindowOf, KeyOf;
    StreamingIsBatch(c, ls, k);
    var s := Interleave(c, ls);
    assert Flushed(s, k);
    WindowHasReading(c, s.stored, k);
    var i :| 0 <= i < |s.stored| && KeyOf(c, s.stored[i]) == k;
    r := s.stored[i];
  }

  /** EMITTED ONCE, ON TIME. In a guarded interleaving a window is emitted by the first flush at or after its
      end plus the grace period and by no other, and whatever is checked for it afterwards is late. */
  lemma {:induction false} EmittedOnceOnTime(c: Spec, ls: seq<Label>, j: nat, k: int)
    requires WholeSeconds(c) && Clocked(ls) && Guarded(c, ls)
    requires j < |Interleave(c, ls).harvests| && k in Interleave(c, ls).harvests[j].windows
    ensures Interleave(c, ls).harvests[j].windows[k].count > 0
    ensures var hs := Interleave(c, ls).harvests;
            var w := Emit(c, k, hs[j].windows[k]);
            && w.windowEnd + c.lateness <= hs[j].now
            && (forall i :: 0 <= i < j ==> hs[i].now < w.windowEnd + c.lateness)
            && (forall i :: 0 <= i < |hs| && k in hs[i].windows ==> i == j)
            && (forall r: SensorReading, now: Instant ::
                  w.windowStart <= r.time < w.windowEnd && hs[j].now <= now ==> !OnTime(c, r, now))
  {
    GuardedIsRaceFree(c, ls);
    hide KeyOf, OnTime, Interleave;
    FirstDueFlush(c, ls, j, k);
    var first := EmittedFor(c, ls, j, k);
    var h := Interleave(c, ls).harvests[j];
    var w := Emit(c, k, h.windows[k]);
    forall r: SensorReading, now: Instant | w.windowStart <= r.time < w.windowEnd && h.now <= now ensures !OnTime(c, r, now) {
      EmittedBoundsAreTheWindow(c, h.windows[k], first, r);
      LateAfterDeadline(c, r, now);
    }
  }

  /** ... AND NO WINDOW STAYS OPEN past its end plus the grace period: every flush so far came before. */
  lemma {:induction false} OpenIsNotDue(c: Spec, ls: seq<Label>, i: nat, k: int)
    requires WholeSeconds(c) && Clocked(ls) && Guarded(c, ls)
    requires i < |Interleave(c, ls).harvests| && k in Interleave(c, ls).state.buckets
    ensures var s := Interleave(c, ls);
            s.state.buckets[k].count > 0 && s.harvests[i].now < Emit(c, k, s.state.buckets[k]).windowEnd + c.lateness
  {
    GuardedIsRaceFree(c, ls);
    StreamingIsBatch(c, ls, k);
    LatestBounds(ls);
    PromptAlways(c, ls, Latest(ls));
    hide Interleave, WindowOf;
  }

  /** One more reading stored right after the flush. */
  ghost predicate StaysPrompt(c: Spec, ls: seq<Label>, n: nat, t: int) {
    0 < n <= |ls| && ls[n - 1].Flush? ==> Prompt(c, Next(c, Interleave(c, ls[..n]), Update(t)))
  }

  lemma StrandedIsLate(c: Spec, s: Shared, now: Instant, t: int)
    requires t in s.pending && Deadline(c, KeyOf(c, s.pending[t])) <= now
    ensures !Prompt(c, Next(c, Next(c, s, Flush(now)), Update(t)))
  {
    hide Deadline, KeyOf, Push;
    var k, n := KeyOf(c, s.pending[t]), |s.harvests|;
    var s1 := Next(c, s, Flush(now));
    assert s1.harvests[n].now == now;
    var s2 := Next(c, s1, Update(t));
    assert k in s2.state.buckets && s2.harvests == s1.harvests;
  }

  /** EXACTLY THE GUARDED RUNS STAY ON TIME. A clocked run is guarded if and only if after each of its flushes no
      waiting reading, stored right away, opens a window that should have been flushed already. */
  lemma {:induction false} OnTimeIffGuarded(c: Spec, ls: seq<Label>)
    requires WholeSeconds(c) && Clocked(ls)
    ensures Guarded(c, ls) <==> forall n: nat, t :: StaysPrompt(c, ls, n, t)
  {
    hide Next, Prompt, Ahead, Due;
    if Guarded(c, ls) {
      forall n: nat, t ensures StaysPrompt(c, ls, n, t) {
        if 0 < n <= |ls| && ls[n - 1].Flush? {
          PrefixPrompt(c, ls, n);
          assert !Strands(c, Interleave(c, ls[..n]), Update(t));
          AheadStep(c, Interleave(c, ls[..n]), Update(t));
        }
      }
    } else {
      var n :| 0 <= n < |ls| && Strands(c, Interleave(c, ls[..n]), ls[n]);
      var s := Interleave(c, ls[..n]);
      var t :| t in s.pending && Deadline(c, KeyOf(c, s.pending[t])) <= ls[n].now;
      StrandedIsLate(c, s, ls[n].now, t);
      assert ls[..n + 1][..n] == ls[..n];
      assert !StaysPrompt(c, ls, n + 1, t);
    }
  }

  lemma {:induction false} PrefixPrompt(c: Spec, ls: seq<Label>, n: nat)
    requires WholeSeconds(c) && Clocked(ls) && Guarded(c, ls) && 0 < n <= |ls| && ls[n - 1].Flush?
    ensures Ahead(c, Interleave(c, ls[..n])) && Prompt(c, Interleave(c, ls[..n]))
  {
    hide Strands, Interleave, Ahead, Prompt;
    assert Guarded(c, ls[..n]) by {
      forall m | 0 <= m < n ensures !Strands(c, Interleave(c, ls[..n][..m]), ls[..n][m]) {
        assert ls[..n][..m] == ls[..m];
      }
    }
    PromptAlways(c, ls[..n], ls[n - 1].now);
  }

  // ----- Which sizes emit once -----

  lemma StartLost(c: Spec) returns (t: Instant)
    requires !WholeSeconds(c)
    ensures FromUnix(Unix(Truncate(t, c.size))) < Truncate(t, c.size)
  {
    t := if c.size <= 0 then 1 else c.size;
    assert Truncate(t, c.size) == t;
  }

  /** Check, update and flush with nothing in between. */
  lemma {:induction false} AddAndFlush(c: Spec, ls: seq<Label>, r: SensorReading, now: Instant)
    requires RaceFree(c, ls) && Interleave(c, ls).pending == map[]
    requires OnTime(c, r, now) && Deadline(c, KeyOf(c, r)) <= now
    ensures var ms := ls + [Check(0, r, now)] + [Update(0)] + [Flush(now)];
            && RaceFree(c, ms) && Interleave(c, ms).pending == map[]
            && |Interleave(c, ms).harvests| == |Interleave(c, ls).harvests| + 1
            && Interleave(c, ls).harvests <= Interleave(c, ms).harvests
            && KeyOf(c, r) in Interleave(c, ms).harvests[|Interleave(c, ls).harvests|].windows
  {
    hide Deadline, KeyOf, OnTime, Push;
    var l1 := ls + [Check(0, r, now)];
    var l2 := l1 + [Update(0)];
    var ms := l2 + [Flush(now)];
    InterleaveSnoc(c, ls, Check(0, r, now));
    InterleaveSnoc(c, l1, Update(0));
    InterleaveSnoc(c, l2, Flush(now));
    assert Interleave(c, l2).pending == map[];
    RaceFreeSnoc(c, ls, Check(0, r, now));
    RaceFreeSnoc(c, l1, Update(0));
    RaceFreeSnoc(c, l2, Flush(now));
  }

  lemma {:induction false} RaceFreeSnoc(c: Spec, ls: seq<Label>, l: Label)
    requires RaceFree(c, ls) && !Races(c, Interleave(c, ls), l)
    ensures RaceFree(c, ls + [l])
  {
    hide Races, Interleave;
    assert (ls + [l])[..|ls|] == ls;
    forall n | 0 <= n < |ls + [l]| ensures !Races(c, Interleave(c, (ls + [l])[..n]), (ls + [l])[n]) {
      if n < |ls| {
        assert (ls + [l])[..n] == ls[..n];
      }
    }
  }

  /** Added and flushed twice at one instant, a reading that is on time past its deadline comes out twice. */
  lemma AddedTwiceComesTwice(c: Spec, r: SensorReading, now: Instant) returns (ls: seq<Label>)
    requires OnTime(c, r, now) && Deadline(c, KeyOf(c, r)) <= now
    ensures RaceFree(c, ls) && !EmittedOnce(Interleave(c, ls))
    ensures forall i :: 0 <= i < |ls| && !ls[i].Update? ==> ls[i].now == now
  {
    hide Deadline, KeyOf, OnTime, Interleave, RaceFree;
    EmptyRaceFree(c);
    AddAndFlush(c, [], r, now);
    var once := [] + [Check(0, r, now)] + [Update(0)] + [Flush(now)];
    AddAndFlush(c, once, r, now);
    ls := once + [Check(0, r, now)] + [Update(0)] + [Flush(now)];
    assert KeyOf(c, r) in Interleave(c, ls).harvests[0].windows;
  }

  /** With any other size some reading is: its key names an earlier start than its window has. */
  lemma OtherSizesEmitTwice(c: Spec) returns (ls: seq<Label>)
    requires !WholeSeconds(c)
    ensures Clocked(ls) && RaceFree(c, ls) && !EmittedOnce(Interleave(c, ls))
  {
    var t := StartLost(c);
    var r := SensorReading("sensor-0001", 47.5, 19.0, 20.0, t);
    var now := Deadline(c, KeyOf(c, r));
    assert OnTime(c, r, now);
    hide RaceFree, EmittedOnce, Interleave;
    ls := AddedTwiceComesTwice(c, r, now);
  }

  lemma {:induction false} EmptyRaceFree(c: Spec)
    ensures RaceFree(c, []) && Interleave(c, []) == START
  {
  }

  /** WHICH SIZES EMIT ONCE. Every clocked race-free interleaving emits each window at most once exactly when
      windows last a positive whole number of seconds; the service accepts other sizes all the same. */
  lemma {:induction false} EmitsOnceIffWholeSeconds(c: Spec)
    ensures (forall ls :: Clocked(ls) && RaceFree(c, ls) ==> EmittedOnce(Interleave(c, ls))) <==> WholeSeconds(c)
  {
    if WholeSeconds(c) {
      forall ls | Clocked(ls) && RaceFree(c, ls) ensures EmittedOnce(Interleave(c, ls)) {
        StreamingIsBatch(c, ls, 0);
      }
    } else {
      var ls := OtherSizesEmitTwice(c);
    }
  }

  // ----- The flush schedule does not matter -----

  /** A run without its flushes. */
  function Unflushed(ls: seq<Label>): seq<Label> {
    if ls == [] then []
    else
      var before := Unflushed(ls[..|ls| - 1]);
      if ls[|ls| - 1].Flush? then before else before + [ls[|ls| - 1]]
  }

  lemma StoredStep(c: Spec, s: Shared, t: Shared, l: Label)
    requires s.stored == t.stored && s.pending == t.pending && s.state.late == t.state.late
    ensures var a, b := Next(c, s, l), Next(c, t, l);
            a.stored == b.stored && a.pending == b.pending && a.state.late == b.state.late
    ensures l.Flush? ==> Next(c, s, l).stored == s.stored && Next(c, s, l).pending == s.pending
                         && Next(c, s, l).state.late == s.state.late
  {
    hide OnTime, KeyOf, Push, Deadline;
  }

  lemma {:induction false} StoredIgnoresFlushes(c: Spec, ls: seq<Label>)
    ensures var s, t := Interleave(c, ls), Interleave(c, Unflushed(ls));
            s.stored == t.stored && s.pending == t.pending && s.state.late == t.state.late
  {
    if ls != [] {
      hide Next;
      var before, l := ls[..|ls| - 1], ls[|ls| - 1];
      StoredIgnoresFlushes(c, before);
      StoredStep(c, Interleave(c, before), Interleave(c, Unflushed(before)), l);
      if !l.Flush? {
        InterleaveSnoc(c, Unflushed(before), l);
      }
    }
  }

  /** Everything emitted so far. */
  function AllWindows(hs: seq<Harvest>): map<int, Agg> {
    if hs == [] then map[] else AllWindows(hs[..|hs| - 1]) + hs[|hs| - 1].windows
  }

  lemma {:induction false} AllWindowsAt(hs: seq<Harvest>, k: int)
    ensures k in AllWindows(hs) <==> exists j :: 0 <= j < |hs| && k in hs[j].windows
    ensures k in AllWindows(hs) ==> exists j :: 0 <= j < |hs| && k in hs[j].windows && hs[j].windows[k] == AllWindows(hs)[k]
  {
    if hs != [] {
      var before := hs[..|hs| - 1];
      AllWindowsAt(before, k);
      if k in hs[|hs| - 1].windows {
      } else if k in AllWindows(before) {
        var j :| 0 <= j < |before| && k in before[j].windows && before[j].windows[k] == AllWindows(before)[k];
        assert hs[j] == before[j];
      } else {
        assert forall j :: 0 <= j < |before| ==> before[j] == hs[j];
      }
    }
  }

  lemma {:induction false} DrainedWindow(c: Spec, ls: seq<Label>, k: int)
    requires WholeSeconds(c) && Clocked(ls) && RaceFree(c, ls) && Interleave(c, ls).state.buckets == map[]
    ensures var s := Interleave(c, ls); var xs := WindowOf(c, s.stored, k);
            && (k in AllWindows(s.harvests) <==> xs != [])
            && (k in AllWindows(s.harvests) ==> Summarizes(AllWindows(s.harvests)[k], xs))
  {
    hide Interleave, WindowOf, Summarizes, AllWindows;
    StreamingIsBatch(c, ls, k);
    AllWindowsAt(Interleave(c, ls).harvests, k);
  }

  /** ANY FLUSH SCHEDULE. Two race-free interleavings with the same checks and updates, flushed differently,
      have emitted the same aggregates once both are drained. */
  lemma {:induction false} FlushScheduleIsIrrelevant(c: Spec, ls1: seq<Label>, ls2: seq<Label>)
    requires WholeSeconds(c) && Clocked(ls1) && Clocked(ls2) && RaceFree(c, ls1) && RaceFree(c, ls2)
    requires Unflushed(ls1) == Unflushed(ls2)
    requires Interleave(c, ls1).state.buckets == map[] && Interleave(c, ls2).state.buckets == map[]
    ensures AllWindows(Interleave(c, ls1).harvests) == AllWindows(Interleave(c, ls2).harvests)
    ensures Interleave(c, ls1).state.late == Interleave(c, ls2).state.late
  {
    hide Interleave, AllWindows, Clocked, RaceFree, Unflushed;
    StoredIgnoresFlushes(c, ls1);
    StoredIgnoresFlushes(c, ls2);
    var m1, m2 := AllWindows(Interleave(c, ls1).harvests), AllWindows(Interleave(c, ls2).harvests);
    forall k ensures (k in m1 <==> k in m2) && (k in m1 ==> m1[k] == m2[k]) {
      hide WindowOf, Summarizes;
      DrainedWindow(c, ls1, k);
      DrainedWindow(c, ls2, k);
      if k in m1 {
        SummaryIsUnique(m1[k], m2[k], WindowOf(c, Interleave(c, ls1).stored, k));
      }
    }
  }
}
