/** Whole turns of the loop, and why no message can wedge a partition. */
module IngestionProgress {
  import opened Events
  import opened Ingestion

  /** What the surroundings do during one turn of the loop in `Run`. The context may be cancelled before the
      fetch, or at any time after it up to the commit; the fetch may fail. */
  datatype Turn = Turn(
    p: nat, cancelFirst: bool, fetchFails: bool, cancelLater: bool,
    insert: Fate, publish: Fate, dlq: Fate, now: Instant, commit: Fate, canceled: bool)

  /** One turn; the labels that do not apply to the fetched message do nothing. */
  function Labels(t: Turn): seq<Label> {
    FetchLabels(t) + HandlerLabels(t) + PoisonLabels(t) + [Commit(t.commit, t.canceled)]
  }

  function CancelLabels(b: bool): seq<Label> {
    if b then [Cancel] else []
  }

  function FetchLabel(t: Turn): Label {
    if t.fetchFails then FetchFails else Fetch(t.p)
  }

  function FetchLabels(t: Turn): seq<Label> {
    CancelLabels(t.cancelFirst) + [FetchLabel(t)] + CancelLabels(t.cancelLater)
  }

  function HandlerLabels(t: Turn): seq<Label> {
    [Insert(t.insert), PublishClean(t.publish), Count]
  }

  function PoisonLabels(t: Turn): seq<Label> {
    [PublishDlq(t.dlq, t.now), SkipPoison]
  }

  function CancelIf(s: State, b: bool): (u: State)
    requires Shaped(s)
    ensures Shaped(u)
  {
    if b then s.(cancelled := true) else s
  }

  function AfterFetch(cfg: Config, s: State, t: Turn): (u: State)
    requires Shaped(s)
    ensures Shaped(u)
  {
    CancelIf(Step(cfg, CancelIf(s, t.cancelFirst), FetchLabel(t)), t.cancelLater)
  }

  function AfterHandler(cfg: Config, s: State, t: Turn): (u: State)
    requires Shaped(s)
    ensures Shaped(u)
  {
    Step(cfg, Step(cfg, Step(cfg, s, Insert(t.insert)), PublishClean(t.publish)), Count)
  }

  function AfterPoison(cfg: Config, s: State, t: Turn): (u: State)
    requires Shaped(s)
    ensures Shaped(u)
  {
    Step(cfg, Step(cfg, s, PublishDlq(t.dlq, t.now)), SkipPoison)
  }

  function AfterTurn(cfg: Config, s: State, t: Turn): (u: State)
    requires Shaped(s)
    ensures Shaped(u)
  {
    Step(cfg, AfterPoison(cfg, AfterHandler(cfg, AfterFetch(cfg, s, t), t), t), Commit(t.commit, t.canceled))
  }

  function AfterTurns(cfg: Config, s: State, ts: seq<Turn>): (u: State)
    requires Shaped(s)
    ensures Shaped(u)
  {
    if ts == [] then s else AfterTurn(cfg, AfterTurns(cfg, s, ts[..|ts| - 1]), ts[|ts| - 1])
  }

  function AllLabels(ts: seq<Turn>): seq<Label> {
    if ts == [] then [] else AllLabels(ts[..|ts| - 1]) + Labels(ts[|ts| - 1])
  }

  lemma {:induction false} HandlerIsRun(cfg: Config, s: State, t: Turn)
    requires Shaped(s)
    ensures Run(cfg, s, HandlerLabels(t)) == AfterHandler(cfg, s, t)
  {
    hide Step;
    var a, b, c := Insert(t.insert), PublishClean(t.publish), Count;
    assert HandlerLabels(t) == [] + [a] + [b] + [c];
    RunSnoc(cfg, s, [], a);
    RunSnoc(cfg, s, [] + [a], b);
    RunSnoc(cfg, s, [] + [a] + [b], c);
  }

  lemma {:induction false} PoisonIsRun(cfg: Config, s: State, t: Turn)
    requires Shaped(s)
    ensures Run(cfg, s, PoisonLabels(t)) == AfterPoison(cfg, s, t)
  {
    hide Step;
    var a, b := PublishDlq(t.dlq, t.now), SkipPoison;
    assert PoisonLabels(t) == [] + [a] + [b];
    RunSnoc(cfg, s, [], a);
    RunSnoc(cfg, s, [] + [a], b);
  }

  lemma {:induction false} CancelIsRun(cfg: Config, s: State, b: bool)
    requires Shaped(s)
    ensures Run(cfg, s, CancelLabels(b)) == CancelIf(s, b)
  {
    if b {
      assert CancelLabels(b)[..0] == [];
    }
  }

  lemma {:induction false} FetchIsRun(cfg: Config, s: State, t: Turn)
    requires Shaped(s)
    ensures Run(cfg, s, FetchLabels(t)) == AfterFetch(cfg, s, t)
  {
    hide Step;
    var a, f, b := CancelLabels(t.cancelFirst), FetchLabel(t), CancelLabels(t.cancelLater);
    CancelIsRun(cfg, s, t.cancelFirst);
    RunSnoc(cfg, s, a, f);
    RunConcat(cfg, s, a + [f], b);
    CancelIsRun(cfg, Run(cfg, s, a + [f]), t.cancelLater);
  }

  lemma {:induction false} TurnIsRun(cfg: Config, s: State, t: Turn)
    requires Shaped(s)
    ensures Run(cfg, s, Labels(t)) == AfterTurn(cfg, s, t)
  {
    hide Step, AfterFetch, AfterHandler, AfterPoison, FetchLabels, HandlerLabels, PoisonLabels;
    var f, h, d, c := FetchLabels(t), HandlerLabels(t), PoisonLabels(t), Commit(t.commit, t.canceled);
    FetchIsRun(cfg, s, t);
    RunConcat(cfg, s, f, h);
    HandlerIsRun(cfg, Run(cfg, s, f), t);
    RunConcat(cfg, s, f + h, d);
    PoisonIsRun(cfg, Run(cfg, s, f + h), t);
    RunSnoc(cfg, s, f + h + d, c);
  }

  /** Turns are schedules, so everything proved of schedules holds of the loop. */
  lemma {:induction false} TurnsAreRun(cfg: Config, s: State, ts: seq<Turn>)
    requires Shaped(s)
    ensures Run(cfg, s, AllLabels(ts)) == AfterTurns(cfg, s, ts)
  {
    if ts != [] {
      var before := ts[..|ts| - 1];
      TurnsAreRun(cfg, s, before);
      RunConcat(cfg, s, AllLabels(before), Labels(ts[|ts| - 1]));
      TurnIsRun(cfg, AfterTurns(cfg, s, before), ts[|ts| - 1]);
    }
  }

  /** The infrastructure answers, and the clock is past Go's zero time. */
  predicate Healthy(t: Turn) {
    !t.fetchFails && t.insert.Done? && t.publish.Done? && t.dlq.Done? && t.commit.Done? && t.now != 0
  }

  /** The envelope built for a poison message passes its own check for every topic with a name: the
      reason is never empty. */
  lemma EnvelopeIsValid(cfg: Config, s: State, now: Instant)
    requires Shaped(s) && s.pc.InFlight? && Judge(cfg, InHand(s)).Poison?
    ensures Envelope(cfg, s, Judge(cfg, InHand(s)).reason, now).Validate() == None <==> cfg.topic != "" && now != 0
  {
  }

  /** From `s` to `u` only the dead-letter topic has got anything: the message's address, payload and reason,
      and the time `now`; not even that without a topic. */
  ghost predicate DeadLetters(cfg: Config, s: State, u: State, at: Pos, value: Bytes, now: Instant) {
    && (u.clean, u.db, u.processed) == (s.clean, s.db, s.processed)
    && (if cfg.hasDlq then
          exists reason :: Explains(cfg, value, reason) && u.dlq == s.dlq + [DeadLetter(cfg.topic, at.p, at.o, reason, now, value)]
        else u.dlq == s.dlq)
  }

  /** From `s` to `u` a reading without faults has been stored, published clean and counted, and anything else
      dead-lettered. */
  ghost predicate DisposesOf(cfg: Config, s: State, u: State, at: Pos, value: Bytes, now: Instant) {
    match cfg.decode(value)
    case Undecodable(_) => DeadLetters(cfg, s, u, at, value, now)
    case Ok(r) =>
      if Faults(r) == {} then
        && u.db == InsertIfAbsent(s.db, r) && u.clean == s.clean + [CleanRecord(at, r)]
        && u.processed == s.processed + 1 && u.dlq == s.dlq
      else DeadLetters(cfg, s, u, at, value, now)
  }

  lemma HandlerDisposes(cfg: Config, s: State, t: Turn)
    requires Shaped(s) && At(s, Fetched) && Healthy(t) && Judge(cfg, InHand(s)).Deliver?
    ensures var u := AfterHandler(cfg, s, t);
            && u.pc == InFlight(s.pc.at, Handled)
            && (u.raw, u.pos, u.committed, u.dlq) == (s.raw, s.pos, s.committed, s.dlq)
            && u.db == InsertIfAbsent(s.db, Judge(cfg, InHand(s)).reading)
            && u.clean == s.clean + [CleanRecord(s.pc.at, Judge(cfg, InHand(s)).reading)]
            && u.processed == s.processed + 1
  {
    var s1 := Step(cfg, s, Insert(t.insert));
    assert s1.pc == InFlight(s.pc.at, Inserted) && InHand(s1) == InHand(s);
    var s2 := Step(cfg, s1, PublishClean(t.publish));
    assert s2.pc == InFlight(s.pc.at, Published);
  }

  lemma PoisonDisposes(cfg: Config, s: State, t: Turn)
    requires Shaped(s) && At(s, Fetched) && Healthy(t) && Judge(cfg, InHand(s)).Poison? && cfg.topic != ""
    ensures var u := AfterPoison(cfg, s, t);
            && u.pc == InFlight(s.pc.at, Handled)
            && (u.raw, u.pos, u.committed, u.clean) == (s.raw, s.pos, s.committed, s.clean)
            && DeadLetters(cfg, s, u, s.pc.at, InHand(s), t.now)
  {
    EnvelopeIsValid(cfg, s, t.now);
    JudgedByItsFaults(cfg, InHand(s));
    assert Explains(cfg, InHand(s), Judge(cfg, InHand(s)).reason);
  }

  /** The labels meant for the other kind of message do nothing. */
  lemma OtherLabelsIdle(cfg: Config, s: State, t: Turn)
    requires Shaped(s) && s.pc.InFlight?
    ensures At(s, Fetched) && Judge(cfg, InHand(s)).Poison? ==> AfterHandler(cfg, s, t) == s
    ensures At(s, Handled) ==> AfterPoison(cfg, s, t) == s
  {
  }

  /** What disposing of one message puts on the clean topic. */
  function CleanFor(cfg: Config, value: Bytes, at: Pos): seq<CleanRecord> {
    match Judge(cfg, value)
    case Deliver(r) => [CleanRecord(at, r)]
    case Poison(_) => []
  }

  lemma MessageDisposes(cfg: Config, f: State, t: Turn)
    requires Shaped(f) && At(f, Fetched) && Healthy(t) && cfg.topic != ""
    ensures var d := AfterPoison(cfg, AfterHandler(cfg, f, t), t);
            && d.pc == InFlight(f.pc.at, Handled)
            && (d.raw, d.pos, d.committed) == (f.raw, f.pos, f.committed)
            && d.clean == f.clean + CleanFor(cfg, InHand(f), f.pc.at)
            && DisposesOf(cfg, f, d, f.pc.at, InHand(f), t.now)
  {
    hide Step, AfterHandler, AfterPoison, Judge, Faults, DeadLetters, Explains, InsertIfAbsent;
    JudgedByItsFaults(cfg, InHand(f));
    OtherLabelsIdle(cfg, f, t);
    if Judge(cfg, InHand(f)).Deliver? {
      HandlerDisposes(cfg, f, t);
      OtherLabelsIdle(cfg, AfterHandler(cfg, f, t), t);
    } else {
      assert cfg.decode(InHand(f)).Ok? ==> !Carries(cfg, InHand(f), cfg.decode(InHand(f)).reading);
      PoisonDisposes(cfg, f, t);
    }
  }

  lemma FetchesNext(cfg: Config, s: State, t: Turn)
    requires Shaped(s) && s.pc.Idle? && !t.fetchFails && t.p < |s.raw| && s.pos[t.p] < |s.raw[t.p]|
    ensures var f := AfterFetch(cfg, s, t);
            && f.pc == InFlight(Pos(t.p, s.pos[t.p]), Fetched)
            && (f.raw, f.pos, f.committed, f.clean) == (s.raw, s.pos[t.p := s.pos[t.p] + 1], s.committed, s.clean)
            && (f.db, f.dlq, f.processed) == (s.db, s.dlq, s.processed)
  {
  }

  lemma CommitsIt(cfg: Config, d: State, t: Turn)
    requires Shaped(d) && At(d, Handled) && t.commit.Done?
    ensures var u := Step(cfg, d, Commit(t.commit, t.canceled));
            && u.pc.Idle?
            && (u.raw, u.pos, u.committed, u.clean) == (d.raw, d.pos, d.committed[d.pc.at.p := d.pc.at.o + 1], d.clean)
            && (u.db, u.dlq, u.processed) == (d.db, d.dlq, d.processed)
  {
  }

  /** NO MESSAGE WEDGES A PARTITION. With healthy infrastructure one turn fetches the next message of the
      partition, whatever it is, and commits exactly it; a reading without faults it stores, publishes clean and
      counts, anything else it dead-letters. A cancellation on the way makes no difference. */
  lemma {:induction false} HealthyTurn(cfg: Config, s: State, t: Turn)
    requires Shaped(s) && s.pc.Idle? && Healthy(t) && cfg.topic != ""
    requires t.p < |s.raw| && s.pos[t.p] < |s.raw[t.p]|
    ensures var u := AfterTurn(cfg, s, t);
            && u.pc.Idle? && u.raw == s.raw
            && u.pos == s.pos[t.p := s.pos[t.p] + 1]
            && u.committed == s.committed[t.p := s.pos[t.p] + 1]
            && DisposesOf(cfg, s, u, Pos(t.p, s.pos[t.p]), s.raw[t.p][s.pos[t.p]], t.now)
            && u.clean == s.clean + CleanFor(cfg, s.raw[t.p][s.pos[t.p]], Pos(t.p, s.pos[t.p]))
  {
    hide Step, AfterFetch, AfterHandler, AfterPoison, CleanFor, Faults, Explains, InsertIfAbsent;
    FetchesNext(cfg, s, t);
    var f := AfterFetch(cfg, s, t);
    MessageDisposes(cfg, f, t);
    CommitsIt(cfg, AfterPoison(cfg, AfterHandler(cfg, f, t), t), t);
  }

  /** Messages this process has not fetched yet. */
  function Backlog(raw: seq<seq<Bytes>>, pos: seq<nat>): nat
    requires |raw| == |pos| && forall p :: 0 <= p < |raw| ==> pos[p] <= |raw[p]|
  {
    if raw == [] then 0
    else |raw[|raw| - 1]| - pos[|raw| - 1] + Backlog(raw[..|raw| - 1], pos[..|raw| - 1])
  }

  lemma {:induction false} BacklogDrops(raw: seq<seq<Bytes>>, pos: seq<nat>, p: nat)
    requires |raw| == |pos| && forall q :: 0 <= q < |raw| ==> pos[q] <= |raw[q]|
    requires p < |raw| && pos[p] < |raw[p]|
    ensures Backlog(raw, pos[p := pos[p] + 1]) == Backlog(raw, pos) - 1
  {
    var n := |raw| - 1;
    if p < n {
      assert pos[p := pos[p] + 1][..n] == pos[..n][p := pos[p] + 1];
      BacklogDrops(raw[..n], pos[..n], p);
    } else {
      assert pos[p := pos[p] + 1][..n] == pos[..n];
    }
  }

  lemma {:induction false} NoBacklog(raw: seq<seq<Bytes>>, pos: seq<nat>)
    requires |raw| == |pos| && forall q :: 0 <= q < |raw| ==> pos[q] <= |raw[q]|
    ensures Backlog(raw, pos) == 0 <==> forall q :: 0 <= q < |raw| ==> pos[q] == |raw[q]|
  {
    if raw != [] {
      NoBacklog(raw[..|raw| - 1], pos[..|raw| - 1]);
    }
  }

  /** Every turn finds a message on the partition it polls. */
  ghost predicate Productive(cfg: Config, s: State, ts: seq<Turn>)
    requires Shaped(s)
  {
    ts == [] || (var u, t := AfterTurns(cfg, s, ts[..|ts| - 1]), ts[|ts| - 1];
                 Productive(cfg, s, ts[..|ts| - 1]) && t.p < |u.raw| && u.pos[t.p] < |u.raw[t.p]| && Healthy(t))
  }

  lemma TurnProgress(cfg: Config, s: State, t: Turn)
    requires Shaped(s) && s.pc.Idle? && s.pos == s.committed && cfg.topic != "" && Healthy(t)
    requires t.p < |s.raw| && s.pos[t.p] < |s.raw[t.p]|
    ensures var u := AfterTurn(cfg, s, t);
            && u.pc.Idle? && u.raw == s.raw && u.pos == u.committed
            && Backlog(u.raw, u.committed) == Backlog(s.raw, s.committed) - 1
  {
    hide AfterTurn;
    HealthyTurn(cfg, s, t);
    BacklogDrops(s.raw, s.pos, t.p);
  }

  lemma {:induction false} TurnsProgress(cfg: Config, s: State, ts: seq<Turn>)
    requires Shaped(s) && s.pc.Idle? && s.pos == s.committed && cfg.topic != "" && Productive(cfg, s, ts)
    ensures var u := AfterTurns(cfg, s, ts);
            && u.pc.Idle? && u.raw == s.raw && u.pos == u.committed
            && Backlog(u.raw, u.committed) == Backlog(s.raw, s.committed) - |ts|
  {
    if ts != [] {
      TurnsProgress(cfg, s, ts[..|ts| - 1]);
      var u, t := AfterTurns(cfg, s, ts[..|ts| - 1]), ts[|ts| - 1];
      TurnProgress(cfg, u, t);
    }
  }

  /** A FINITE LOG IS DRAINED IN AS MANY TURNS AS IT HAS UNCOMMITTED MESSAGES, in whatever order the
      partitions are polled and whatever mix of garbage, invalid and valid messages they hold. */
  lemma {:induction false} DrainTakesBacklogTurns(cfg: Config, s: State, ts: seq<Turn>)
    requires Shaped(s) && s.pc.Idle? && s.pos == s.committed && cfg.topic != "" && Productive(cfg, s, ts)
    ensures |ts| <= Backlog(s.raw, s.committed)
    ensures var u := AfterTurns(cfg, s, ts);
            u.raw == s.raw
            && ((forall p :: 0 <= p < |u.raw| ==> u.committed[p] == |u.raw[p]|) <==> |ts| == Backlog(s.raw, s.committed))
  {
    TurnsProgress(cfg, s, ts);
    var u := AfterTurns(cfg, s, ts);
    NoBacklog(u.raw, u.committed);
  }

  const HEALTHY: Turn := Turn(0, false, false, false, Done, Done, Done, 1, Done, false)

  lemma {:induction false} SomeBacklog(raw: seq<seq<Bytes>>, pos: seq<nat>) returns (p: nat)
    requires |raw| == |pos| && (forall q :: 0 <= q < |raw| ==> pos[q] <= |raw[q]|) && Backlog(raw, pos) > 0
    ensures p < |raw| && pos[p] < |raw[p]|
  {
    p := |raw| - 1;
    if pos[p] == |raw[p]| {
      p := SomeBacklog(raw[..p], pos[..p]);
    }
  }

  /** ... AND SUCH TURNS EXIST: from any idle state with everything fetched committed, some healthy turns
      drain the log. */
  lemma {:induction false} SomeTurnsDrain(cfg: Config, s: State, n: nat) returns (ts: seq<Turn>)
    requires Shaped(s) && s.pc.Idle? && s.pos == s.committed && cfg.topic != "" && n <= Backlog(s.raw, s.committed)
    ensures Productive(cfg, s, ts) && |ts| == n
  {
    hide AfterTurn, Backlog;
    ts := [];
    if n > 0 {
      var before := SomeTurnsDrain(cfg, s, n - 1);
      TurnsProgress(cfg, s, before);
      var u := AfterTurns(cfg, s, before);
      var p := SomeBacklog(u.raw, u.pos);
      ts := before + [HEALTHY.(p := p)];
      assert ts[..|ts| - 1] == before;
    }
  }
}
