/** The clean topic follows the raw order, with nothing but adjacent repeats. */
module IngestionOrder {
  import opened Events
  import opened Ingestion
  import opened IngestionSafety
  import opened IngestionDatabase

  type Selector = SensorReading -> bool

  function ById(id: string): Selector {
    (r: SensorReading) => r.sensorId == id
  }

  predicate Picked(cfg: Config, value: Bytes, sel: Selector) {
    Judge(cfg, value).Deliver? && sel(Judge(cfg, value).reading)
  }

  /** The offsets below `n` of the valid, selected messages, in raw order. */
  function Offsets(cfg: Config, log: seq<Bytes>, n: nat, sel: Selector): seq<nat>
    requires n <= |log|
  {
    if n == 0 then []
    else if Picked(cfg, log[n - 1], sel) then Offsets(cfg, log, n - 1, sel) + [n - 1]
    else Offsets(cfg, log, n - 1, sel)
  }

  /** The offsets on the clean topic that came from partition `p` and are selected. */
  function CleanOffsets(clean: seq<CleanRecord>, p: nat, sel: Selector): seq<nat> {
    if clean == [] then []
    else
      var c := clean[|clean| - 1];
      var before := CleanOffsets(clean[..|clean| - 1], p, sel);
      if c.from.p == p && sel(c.reading) then before + [c.from.o] else before
  }

  /** Adjacent repeats removed. */
  function Collapse(xs: seq<nat>): seq<nat> {
    if |xs| <= 1 then xs
    else if xs[|xs| - 1] == xs[|xs| - 2] then Collapse(xs[..|xs| - 1])
    else Collapse(xs[..|xs| - 1]) + [xs[|xs| - 1]]
  }

  /** One past the offset of partition `p`'s latest clean record. */
  function NextClean(clean: seq<CleanRecord>, p: nat): nat {
    if clean == [] then 0
    else if clean[|clean| - 1].from.p == p then clean[|clean| - 1].from.o + 1
    else NextClean(clean[..|clean| - 1], p)
  }

  /** Partition `p`'s clean records follow its log. */
  ghost predicate Follows(cfg: Config, log: seq<Bytes>, clean: seq<CleanRecord>, p: nat, sel: Selector) {
    var next, xs := NextClean(clean, p), CleanOffsets(clean, p, sel);
    && next <= |log|
    && (forall i :: 0 <= i < |clean| && clean[i].from.p == p ==> clean[i].from.o < next)
    && (forall i :: 0 <= i < |xs| ==> xs[i] < next)
    && (next > 0 && Picked(cfg, log[next - 1], sel) ==> xs != [] && xs[|xs| - 1] == next - 1)
    && Collapse(xs) == Offsets(cfg, log, next, sel)
  }

  /** The step puts the message in hand on the clean topic while an earlier valid message of its
      partition is not committed. */
  ghost predicate Overtakes(cfg: Config, s: State, l: Label)
    requires Shaped(s)
  {
    && l.PublishClean? && !l.fate.Refused? && At(s, Inserted) && Judge(cfg, InHand(s)).Deliver?
    && exists o :: Skipped(cfg, s, o)
  }

  ghost predicate Skipped(cfg: Config, s: State, o: nat)
    requires Shaped(s) && s.pc.InFlight?
  {
    s.committed[s.pc.at.p] <= o < s.pc.at.o && Judge(cfg, s.raw[s.pc.at.p][o]).Deliver?
  }

  /** No step of the schedule does that on partition `p`. */
  ghost predicate NoOvertaking(cfg: Config, s: State, ls: seq<Label>, p: nat)
    requires Shaped(s)
  {
    forall n :: 0 <= n < |ls| ==> !OvertakesOn(cfg, Run(cfg, s, ls[..n]), ls[n], p)
  }

  ghost predicate OvertakesOn(cfg: Config, s: State, l: Label, p: nat)
    requires Shaped(s)
  {
    Overtakes(cfg, s, l) && s.pc.at.p == p
  }

  /** Partition `p` is in order, and what has been published past the commit is just the next valid message. */
  ghost predicate Ordered(cfg: Config, s: State, p: nat, sel: Selector)
    requires Shaped(s) && p < |s.raw|
  {
    && Follows(cfg, s.raw[p], s.clean, p, sel)
    && (forall o :: s.committed[p] <= o < NextClean(s.clean, p) - 1 ==> Judge(cfg, s.raw[p][o]).Poison?)
  }

  lemma {:induction false} OffsetsSkipPoison(cfg: Config, log: seq<Bytes>, a: nat, b: nat, sel: Selector)
    requires a <= b <= |log| && forall o :: a <= o < b ==> Judge(cfg, log[o]).Poison?
    ensures Offsets(cfg, log, a, sel) == Offsets(cfg, log, b, sel)
  {
    if a < b {
      OffsetsSkipPoison(cfg, log, a, b - 1, sel);
    }
  }

  lemma {:induction false} OffsetsExtend(cfg: Config, log: seq<Bytes>, more: seq<Bytes>, n: nat, sel: Selector)
    requires n <= |log| && log <= more
    ensures Offsets(cfg, log, n, sel) == Offsets(cfg, more, n, sel)
  {
    if n > 0 {
      OffsetsExtend(cfg, log, more, n - 1, sel);
    }
  }

  lemma {:induction false} CollapseSnoc(xs: seq<nat>, x: nat)
    ensures Collapse(xs + [x]) == if xs != [] && xs[|xs| - 1] == x then Collapse(xs) else Collapse(xs) + [x]
  {
    assert (xs + [x])[..|xs|] == xs;
  }

  /** The next record of this partition, as the functions see it. */
  lemma {:induction false} OneMoreRecord(clean: seq<CleanRecord>, c: CleanRecord, sel: Selector)
    ensures var xs := CleanOffsets(clean, c.from.p, sel);
            && NextClean(clean + [c], c.from.p) == c.from.o + 1
            && CleanOffsets(clean + [c], c.from.p, sel) == if sel(c.reading) then xs + [c.from.o] else xs
  {
    assert (clean + [c])[..|clean|] == clean;
  }

  lemma OneMoreOffset(cfg: Config, log: seq<Bytes>, n: nat, sel: Selector)
    requires n < |log|
    ensures Offsets(cfg, log, n + 1, sel)
         == if Picked(cfg, log[n], sel) then Offsets(cfg, log, n, sel) + [n] else Offsets(cfg, log, n, sel)
  {
  }

  /** A record can repeat the last one of its partition ... */
  lemma {:induction false} RepeatFollows(cfg: Config, log: seq<Bytes>, clean: seq<CleanRecord>, c: CleanRecord, sel: Selector)
    requires Follows(cfg, log, clean, c.from.p, sel)
    requires c.from.o < |log| && Judge(cfg, log[c.from.o]) == Deliver(c.reading)
    requires NextClean(clean, c.from.p) == c.from.o + 1
    ensures Follows(cfg, log, clean + [c], c.from.p, sel)
  {
    hide NextClean, CleanOffsets, Offsets, Collapse, Judge;
    OneMoreRecord(clean, c, sel);
    CollapseSnoc(CleanOffsets(clean, c.from.p, sel), c.from.o);
  }

  /** ... or be the next valid message. */
  lemma {:induction false} ExtendFollows(cfg: Config, log: seq<Bytes>, clean: seq<CleanRecord>, c: CleanRecord, sel: Selector)
    requires Follows(cfg, log, clean, c.from.p, sel)
    requires c.from.o < |log| && Judge(cfg, log[c.from.o]) == Deliver(c.reading)
    requires NextClean(clean, c.from.p) <= c.from.o
    requires forall q :: NextClean(clean, c.from.p) <= q < c.from.o ==> Judge(cfg, log[q]).Poison?
    ensures Follows(cfg, log, clean + [c], c.from.p, sel)
  {
    hide NextClean, CleanOffsets, Offsets, Collapse, Judge;
    OneMoreRecord(clean, c, sel);
    OffsetsSkipPoison(cfg, log, NextClean(clean, c.from.p), c.from.o, sel);
    OneMoreOffset(cfg, log, c.from.o, sel);
    CollapseSnoc(CleanOffsets(clean, c.from.p, sel), c.from.o);
  }

  lemma {:induction false} AppendElsewhereFollows(cfg: Config, log: seq<Bytes>, clean: seq<CleanRecord>, c: CleanRecord, p: nat, sel: Selector)
    requires Follows(cfg, log, clean, p, sel) && c.from.p != p
    ensures Follows(cfg, log, clean + [c], p, sel) && NextClean(clean + [c], p) == NextClean(clean, p)
  {
    assert (clean + [c])[..|clean|] == clean;
  }

  lemma OrderedAppend(cfg: Config, s: State, r: SensorReading, fate: Fate, p: nat, sel: Selector)
    requires Safe(cfg, s) && At(s, Inserted) && p < |s.raw| && Ordered(cfg, s, p, sel) && !fate.Refused?
    requires Judge(cfg, InHand(s)) == Deliver(r) && !OvertakesOn(cfg, s, PublishClean(fate), p)
    ensures Ordered(cfg, s.(clean := s.clean + [CleanRecord(s.pc.at, r)]), p, sel)
  {
    var c := CleanRecord(s.pc.at, r);
    if p == s.pc.at.p {
      assert NextClean(s.clean + [c], p) == s.pc.at.o + 1 by { OneMoreRecord(s.clean, c, sel); }
      forall o | s.committed[p] <= o < s.pc.at.o ensures Judge(cfg, s.raw[p][o]).Poison? {
        assert !Skipped(cfg, s, o);
      }
      forall q | NextClean(s.clean, p) <= q < s.pc.at.o ensures Judge(cfg, s.raw[p][q]).Poison? {
        PublishedBelow(cfg, s, q, sel);
      }
      if NextClean(s.clean, p) <= s.pc.at.o {
        ExtendFollows(cfg, s.raw[p], s.clean, c, sel);
      } else {
        RepeatFollows(cfg, s.raw[p], s.clean, c, sel);
      }
    } else {
      AppendElsewhereFollows(cfg, s.raw[p], s.clean, c, p, sel);
    }
  }

  /** A valid message before the one in hand has reached the clean topic. */
  lemma PublishedBelow(cfg: Config, s: State, q: nat, sel: Selector)
    requires Safe(cfg, s) && At(s, Inserted) && q < s.pc.at.o && Follows(cfg, s.raw[s.pc.at.p], s.clean, s.pc.at.p, sel)
    ensures Judge(cfg, s.raw[s.pc.at.p][q]).Poison? || q < NextClean(s.clean, s.pc.at.p)
  {
    assert q < Settled(s, s.pc.at.p) && Disposed(cfg, s, Pos(s.pc.at.p, q));
    DisposedByVerdict(cfg, s, Pos(s.pc.at.p, q));
    hide Collapse, CleanOffsets, Offsets, NextClean;
  }

  lemma FollowsLonger(cfg: Config, log: seq<Bytes>, more: seq<Bytes>, clean: seq<CleanRecord>, p: nat, sel: Selector)
    requires Follows(cfg, log, clean, p, sel) && log <= more
    ensures Follows(cfg, more, clean, p, sel)
  {
    OffsetsExtend(cfg, log, more, NextClean(clean, p), sel);
  }

  lemma CommitsGrow(cfg: Config, s: State, l: Label, p: nat)
    requires Shaped(s) && p < |s.raw|
    ensures |Step(cfg, s, l).raw| == |s.raw| && s.committed[p] <= Step(cfg, s, l).committed[p]
  {
  }

  lemma OrderedStep(cfg: Config, s: State, l: Label, p: nat, sel: Selector)
    requires Safe(cfg, s) && p < |s.raw| && Ordered(cfg, s, p, sel) && !OvertakesOn(cfg, s, l, p)
    ensures p < |Step(cfg, s, l).raw| && Ordered(cfg, Step(cfg, s, l), p, sel)
  {
    var t := Step(cfg, s, l);
    CommitsGrow(cfg, s, l, p);
    if t.clean != s.clean {
      PublishStep(cfg, s, l);
      PublishesInHand(cfg, s, l);
      OrderedAppend(cfg, s, Judge(cfg, InHand(s)).reading, l.fate, p, sel);
      hide Follows, NextClean, Step;
    } else {
      hide Step;
      assert s.raw[p] <= t.raw[p] by { StepGrows(cfg, s, l); }
      FollowsLonger(cfg, s.raw[p], t.raw[p], s.clean, p, sel);
    }
  }

  lemma PublishesInHand(cfg: Config, s: State, l: Label)
    requires Shaped(s) && Step(cfg, s, l).clean != s.clean
    ensures l.PublishClean? && !l.fate.Refused? && At(s, Inserted) && Judge(cfg, InHand(s)).Deliver?
    ensures Step(cfg, s, l).raw == s.raw && Step(cfg, s, l).committed == s.committed
  {
  }

  lemma {:induction false} PrefixNoOvertaking(cfg: Config, s: State, ls: seq<Label>, n: nat, p: nat)
    requires Shaped(s) && NoOvertaking(cfg, s, ls, p) && n <= |ls|
    ensures NoOvertaking(cfg, s, ls[..n], p)
    ensures n < |ls| ==> !OvertakesOn(cfg, Run(cfg, s, ls[..n]), ls[n], p)
  {
    hide Run, OvertakesOn;
    forall m | 0 <= m < n ensures !OvertakesOn(cfg, Run(cfg, s, ls[..n][..m]), ls[..n][m], p) {
      assert ls[..n][..m] == ls[..m];
    }
  }

  lemma {:induction false} OneMoreNoOvertaking(cfg: Config, s: State, ls: seq<Label>, p: nat)
    requires Shaped(s) && ls != [] && NoOvertaking(cfg, s, ls[..|ls| - 1], p)
    requires !OvertakesOn(cfg, Run(cfg, s, ls[..|ls| - 1]), ls[|ls| - 1], p)
    ensures NoOvertaking(cfg, s, ls, p)
  {
    hide Run, OvertakesOn;
    var n := |ls| - 1;
    forall m | 0 <= m < |ls| ensures !OvertakesOn(cfg, Run(cfg, s, ls[..m]), ls[m], p) {
      if m < n {
        assert ls[..n][..m] == ls[..m] && ls[..n][m] == ls[m];
      }
    }
  }

  lemma {:induction false} OrderedAlways(cfg: Config, s: State, ls: seq<Label>, p: nat, sel: Selector)
    requires Safe(cfg, s) && p < |s.raw| && Ordered(cfg, s, p, sel) && NoOvertaking(cfg, s, ls, p)
    ensures var t := Run(cfg, s, ls);
            Safe(cfg, t) && |t.raw| == |s.raw| && Ordered(cfg, t, p, sel)
  {
    if ls != [] {
      hide Step, OvertakesOn, Ordered, Sound, StageFacts, DisposedBelowSettled, NoOvertaking, Shaped;
      var n := |ls| - 1;
      PrefixNoOvertaking(cfg, s, ls, n, p);
      OrderedAlways(cfg, s, ls[..n], p, sel);
      var t := Run(cfg, s, ls[..n]);
      OrderedStep(cfg, t, ls[n], p, sel);
      SafeStep(cfg, t, ls[n]);
      StepGrows(cfg, t, ls[n]);
      hide Grows;
      assert |Step(cfg, t, ls[n]).raw| == |t.raw|;
    }
  }

  lemma InitOrdered(cfg: Config, raw: seq<seq<Bytes>>, p: nat, sel: Selector)
    requires p < |raw|
    ensures Safe(cfg, Init(raw)) && Ordered(cfg, Init(raw), p, sel)
  {
  }

  /** CLEAN-TOPIC ORDER. As long as no valid message of a partition was published past an uncommitted one, what
      the partition put on the clean topic is, adjacent repeats aside, exactly its selected valid messages in
      raw order up to some offset, and that offset has passed every valid committed message. */
  lemma {:induction false} CleanFollowsRaw(cfg: Config, raw: seq<seq<Bytes>>, ls: seq<Label>, p: nat, sel: Selector)
    requires p < |raw| && NoOvertaking(cfg, Init(raw), ls, p)
    ensures var s := Run(cfg, Init(raw), ls);
            var n := NextClean(s.clean, p);
            && |s.raw| == |raw| && n <= |s.raw[p]|
            && Follows(cfg, s.raw[p], s.clean, p, sel)
            && Collapse(CleanOffsets(s.clean, p, sel)) == Offsets(cfg, s.raw[p], n, sel)
            && (forall o :: n <= o < s.committed[p] ==> Judge(cfg, s.raw[p][o]).Poison?)
  {
    InitOrdered(cfg, raw, p, sel);
    OrderedAlways(cfg, Init(raw), ls, p, sel);
    hide Run, Collapse, CleanOffsets, Offsets, NextClean;
    var s := Run(cfg, Init(raw), ls);
    forall o | NextClean(s.clean, p) <= o < s.committed[p] ensures Judge(cfg, s.raw[p][o]).Poison? {
      assert o < Settled(s, p);
      assert Disposed(cfg, s, Pos(p, o));
      DisposedByVerdict(cfg, s, Pos(p, o));
    }
  }

  /** The offsets of one sensor's records, wherever on the clean topic they are. */
  function SensorOffsets(clean: seq<CleanRecord>, id: string): seq<nat> {
    if clean == [] then []
    else
      var c := clean[|clean| - 1];
      var before := SensorOffsets(clean[..|clean| - 1], id);
      if c.reading.sensorId == id then before + [c.from.o] else before
  }

  lemma {:induction false} SensorOnOnePartition(clean: seq<CleanRecord>, id: string, p: nat)
    requires forall i :: 0 <= i < |clean| && clean[i].reading.sensorId == id ==> clean[i].from.p == p
    ensures SensorOffsets(clean, id) == CleanOffsets(clean, p, ById(id))
  {
    if clean != [] {
      SensorOnOnePartition(clean[..|clean| - 1], id, p);
    }
  }

  /** PER-SENSOR ORDER. One sensor's clean readings are its raw readings in the order it sent
      them, each repeated in place at most. */
  lemma {:induction false} SensorKeepsItsOrder(cfg: Config, raw: seq<seq<Bytes>>, ls: seq<Label>, id: string)
    requires cfg.route(id) < |raw| && NoOvertaking(cfg, Init(raw), ls, cfg.route(id))
    requires Keyed(cfg, Run(cfg, Init(raw), ls).raw)
    ensures var s := Run(cfg, Init(raw), ls);
            var p := cfg.route(id);
            && |s.raw| == |raw| && NextClean(s.clean, p) <= |s.raw[p]|
            && Collapse(SensorOffsets(s.clean, id)) == Offsets(cfg, s.raw[p], NextClean(s.clean, p), ById(id))
  {
    var s, p := Run(cfg, Init(raw), ls), cfg.route(id);
    CleanFollowsRaw(cfg, raw, ls, p, ById(id));
    SafeAlways(cfg, raw, ls);
    SensorOnOnePartition(s.clean, id, p);
  }

  // ----- What keeps messages from overtaking -----

  /** Partition `p` is only ever polled with everything it delivered committed. */
  ghost predicate FetchesInTurn(cfg: Config, s: State, ls: seq<Label>, p: nat)
    requires Shaped(s)
  {
    forall n :: 0 <= n < |ls| && ls[n] == Fetch(p) ==> InTurn(Run(cfg, s, ls[..n]), p)
  }

  ghost predicate InTurn(s: State, p: nat)
    requires Shaped(s)
  {
    s.pc.Idle? && p < |s.raw| ==> s.pos[p] == s.committed[p]
  }

  /** At most one message of partition `p` is fetched and not committed. */
  ghost predicate OneOut(s: State, p: nat)
    requires Shaped(s)
  {
    p < |s.raw| ==> s.pos[p] <= s.committed[p] + 1
  }

  lemma OneOutStep(cfg: Config, s: State, l: Label, p: nat)
    requires Shaped(s) && OneOut(s, p) && (l == Fetch(p) ==> InTurn(s, p))
    ensures OneOut(Step(cfg, s, l), p)
  {
  }

  lemma OneOutNeverOvertakes(cfg: Config, s: State, l: Label, p: nat)
    requires Shaped(s) && OneOut(s, p)
    ensures !OvertakesOn(cfg, s, l, p)
  {
  }

  lemma {:induction false} InTurnAlways(cfg: Config, s: State, ls: seq<Label>, p: nat)
    requires Shaped(s) && OneOut(s, p) && FetchesInTurn(cfg, s, ls, p)
    ensures OneOut(Run(cfg, s, ls), p) && NoOvertaking(cfg, s, ls, p)
  {
    if ls != [] {
      hide Step, OvertakesOn, OneOut, InTurn, NoOvertaking;
      var n := |ls| - 1;
      assert forall m :: 0 <= m <= n ==> ls[..n][..m] == ls[..m];
      InTurnAlways(cfg, s, ls[..n], p);
      OneOutStep(cfg, Run(cfg, s, ls[..n]), ls[n], p);
      OneOutNeverOvertakes(cfg, Run(cfg, s, ls[..n]), ls[n], p);
      OneMoreNoOvertaking(cfg, s, ls, p);
    } else {
      assert NoOvertaking(cfg, s, [], p);
    }
  }

  /** Until a fetch outruns a cancellation, everything fetched before is committed. */
  ghost predicate NothingOut(s: State)
    requires Shaped(s)
  {
    match s.pc
    case Idle => !s.cancelled ==> s.pos == s.committed
    case InFlight(at, _) => forall q :: 0 <= q < |s.raw| ==> s.pos[q] == s.committed[q] + if q == at.p then 1 else 0
    case Down => true
  }

  lemma NothingOutFetched(s: State, p: nat)
    requires Shaped(s) && NothingOut(s) && s.pc.Idle? && p < |s.raw| && s.pos[p] < |s.raw[p]| && !s.cancelled
    ensures NothingOut(StepFetch(s, p))
  {
  }

  lemma NothingOutCommitted(s: State, fate: Fate, canceled: bool)
    requires Shaped(s) && NothingOut(s) && s.pc.InFlight?
    ensures NothingOut(StepCommit(s, fate, canceled))
  {
  }

  /** Other steps leave positions and commits alone. */
  lemma NothingOutOtherwise(cfg: Config, s: State, l: Label)
    requires Shaped(s) && NothingOut(s) && !l.Fetch? && !l.Commit?
    ensures NothingOut(Step(cfg, s, l))
  {
  }

  lemma NothingOutStep(cfg: Config, s: State, l: Label)
    requires Shaped(s) && NothingOut(s) && Step(cfg, s, l).overruns == s.overruns
    ensures NothingOut(Step(cfg, s, l))
    ensures l.Fetch? && s.pc.Idle? && l.p < |s.raw| && s.pos[l.p] < |s.raw[l.p]| ==> !s.cancelled
  {
    hide NothingOut;
    if l.Fetch? {
      if Step(cfg, s, l) != s { NothingOutFetched(s, l.p); }
    } else if l.Commit? {
      if At(s, Handled) { NothingOutCommitted(s, l.fate, l.canceled); }
    } else {
      NothingOutOtherwise(cfg, s, l);
    }
  }

  lemma OverrunsGrow(cfg: Config, s: State, l: Label)
    requires Shaped(s)
    ensures s.overruns <= Step(cfg, s, l).overruns
  {
  }

  lemma NothingOutIsOneOut(s: State, p: nat)
    requires Shaped(s) && NothingOut(s) && s.pc.InFlight?
    ensures OneOut(s, p)
  {
  }

  /** A run without overruns never overtakes, on any partition. */
  lemma {:induction false} NoOverrunNoOvertaking(cfg: Config, raw: seq<seq<Bytes>>, ls: seq<Label>, p: nat)
    requires Run(cfg, Init(raw), ls).overruns == 0
    ensures NothingOut(Run(cfg, Init(raw), ls)) && NoOvertaking(cfg, Init(raw), ls, p)
  {
    if ls != [] {
      hide Step, NothingOut, OvertakesOn, OneOut, NoOvertaking;
      var n := |ls| - 1;
      var s := Run(cfg, Init(raw), ls[..n]);
      OverrunsGrow(cfg, s, ls[n]);
      NoOverrunNoOvertaking(cfg, raw, ls[..n], p);
      NothingOutStep(cfg, s, ls[n]);
      if s.pc.InFlight? {
        NothingOutIsOneOut(s, p);
        OneOutNeverOvertakes(cfg, s, ls[n], p);
      } else {
        IdleNeverOvertakes(cfg, s, ls[n], p);
      }
      OneMoreNoOvertaking(cfg, Init(raw), ls, p);
    } else {
      assert NoOvertaking(cfg, Init(raw), [], p);
    }
  }

  lemma IdleNeverOvertakes(cfg: Config, s: State, l: Label, p: nat)
    requires Shaped(s) && !s.pc.InFlight?
    ensures !OvertakesOn(cfg, s, l, p)
  {
  }

  /** A decoder that finds one and the same valid reading in every message. */
  function OneReading(): SensorReading {
    SensorReading("sensor-0001", 47.5, 19.0, 20.0, SECOND)
  }

  function OneReadingConfig(): Config {
    Config("sensor.readings", (_: Bytes) => Ok(OneReading()), (_: string) => 0, false)
  }

  /** Fetch, insert and publish with nothing going wrong, on a single partition. */
  function Delivered(s: State): State
    requires Shaped(s) && |s.raw| == 1 && s.pos[0] < |s.raw[0]|
  {
    var at, over := Pos(0, s.pos[0]), if s.cancelled then 1 else 0;
    s.(pc := InFlight(at, Published), pos := [at.o + 1], inserted := [Max(s.inserted[0], at.o + 1)],
       db := InsertIfAbsent(s.db, OneReading()), clean := s.clean + [CleanRecord(at, OneReading())],
       overruns := s.overruns + over, lap := s.lap + over)
  }

  lemma InsertsOne(s: State)
    requires Shaped(s) && At(s, Fetched)
    ensures Step(OneReadingConfig(), s, Insert(Done))
         == s.(db := InsertIfAbsent(s.db, OneReading()),
               inserted := s.inserted[s.pc.at.p := Max(s.inserted[s.pc.at.p], s.pc.at.o + 1)],
               pc := InFlight(s.pc.at, Inserted))
  {
  }

  lemma PublishesOne(s: State)
    requires Shaped(s) && At(s, Inserted)
    ensures Step(OneReadingConfig(), s, PublishClean(Done))
         == s.(clean := s.clean + [CleanRecord(s.pc.at, OneReading())], pc := InFlight(s.pc.at, Published))
  {
  }

  lemma DeliversOne(s: State)
    requires Shaped(s) && |s.raw| == 1 && s.pos[0] < |s.raw[0]| && s.pc.Idle?
    ensures var s1 := Step(OneReadingConfig(), s, Fetch(0));
            var s2 := Step(OneReadingConfig(), s1, Insert(Done));
            Step(OneReadingConfig(), s2, PublishClean(Done)) == Delivered(s)
  {
    var s1 := Step(OneReadingConfig(), s, Fetch(0));
    assert s1 == StepFetch(s, 0);
    hide Step, InsertIfAbsent, Shaped;
    InsertsOne(s1);
    PublishesOne(Step(OneReadingConfig(), s1, Insert(Done)));
    assert [s.pos[0] + 1] == s.pos[0 := s.pos[0] + 1];
    assert [Max(s.inserted[0], s.pos[0] + 1)] == s.inserted[0 := Max(s.inserted[0], s.pos[0] + 1)];
  }

  lemma {:induction false} Delivers(cfg: Config, s: State, a: State, ls: seq<Label>)
    requires Shaped(s) && cfg == OneReadingConfig() && Run(cfg, s, ls) == a
    requires |a.raw| == 1 && a.pos[0] < |a.raw[0]| && a.pc.Idle?
    ensures Run(cfg, s, ls + [Fetch(0), Insert(Done), PublishClean(Done)]) == Delivered(a)
  {
    DeliversOne(a);
    RunSnoc(cfg, s, ls, Fetch(0));
    RunSnoc(cfg, s, ls + [Fetch(0)], Insert(Done));
    RunSnoc(cfg, s, ls + [Fetch(0)] + [Insert(Done)], PublishClean(Done));
    assert ls + [Fetch(0), Insert(Done), PublishClean(Done)] == ls + [Fetch(0)] + [Insert(Done)] + [PublishClean(Done)];
  }

  /** The commit is refused because the context is cancelled, and `Run` loops as if it had worked. */
  lemma {:induction false} GoesOn(cfg: Config, s: State, a: State, ls: seq<Label>)
    requires Shaped(s) && Run(cfg, s, ls) == a && At(a, Published)
    ensures Run(cfg, s, ls + [Count, Cancel, Commit(Refused, true)])
         == a.(pc := Idle, processed := a.processed + 1, cancelled := true)
  {
    hide StepInsert, StepPublishClean, StepPublishDlq, StepFetch, Judge;
    RunSnoc(cfg, s, ls, Count);
    RunSnoc(cfg, s, ls + [Count], Cancel);
    RunSnoc(cfg, s, ls + [Count] + [Cancel], Commit(Refused, true));
    assert ls + [Count, Cancel, Commit(Refused, true)] == ls + [Count] + [Cancel] + [Commit(Refused, true)];
  }

  lemma {:induction false} ComesBack(cfg: Config, s: State, a: State, ls: seq<Label>)
    requires Shaped(s) && Run(cfg, s, ls) == a
    ensures Run(cfg, s, ls + [Crash, Restart])
         == a.(pc := Idle, pos := a.committed, cancelled := false, processed := 0, restarts := a.restarts + 1, lap := 0)
  {
    RunSnoc(cfg, s, ls, Crash);
    RunSnoc(cfg, s, ls + [Crash], Restart);
    assert ls + [Crash, Restart] == ls + [Crash] + [Restart];
  }

  /** WHY THE OVERRUN CONDITION. A cancelled commit is reported as success; if the next fetch
      still returns a message, a second one is published before the restart redelivers the first.
      The clean topic then carries offsets 0, 1, 0. */
  lemma OverrunReorders(raw: seq<seq<Bytes>>) returns (ls: seq<Label>)
    requires |raw| == 1 && |raw[0]| == 2
    ensures var s := Run(OneReadingConfig(), Init(raw), ls);
            && s.overruns == 1
            && s.clean == [CleanRecord(Pos(0, 0), OneReading()), CleanRecord(Pos(0, 1), OneReading()),
                           CleanRecord(Pos(0, 0), OneReading())]
  {
    var cfg, s0 := OneReadingConfig(), Init(raw);
    ls := [];
    Delivers(cfg, s0, s0, ls);
    ls := ls + [Fetch(0), Insert(Done), PublishClean(Done)];
    var s1 := Delivered(s0);
    GoesOn(cfg, s0, s1, ls);
    ls := ls + [Count, Cancel, Commit(Refused, true)];
    var s2 := s1.(pc := Idle, processed := 1, cancelled := true);
    Delivers(cfg, s0, s2, ls);
    ls := ls + [Fetch(0), Insert(Done), PublishClean(Done)];
    var s3 := Delivered(s2);
    ComesBack(cfg, s0, s3, ls);
    ls := ls + [Crash, Restart];
    var s4 := s3.(pc := Idle, pos := s3.committed, cancelled := false, processed := 0, restarts := 1, lap := 0);
    Delivers(cfg, s0, s4, ls);
    ls := ls + [Fetch(0), Insert(Done), PublishClean(Done)];
  }

  /** A clean topic that goes back, as that one does, follows no log. */
  lemma GoingBackFollowsNothing(cfg: Config, log: seq<Bytes>, clean: seq<CleanRecord>, p: nat, sel: Selector, i: nat)
    requires i + 1 < |clean| && clean[i].from.p == p == clean[i + 1].from.p
    requires clean[i + 1].from.o < clean[i].from.o && i + 2 == |clean|
    ensures !Follows(cfg, log, clean, p, sel)
  {
    assert NextClean(clean, p) == clean[i + 1].from.o + 1;
  }
}
