/** Exactly which runs keep the clean topic in order, whatever crash and redelivery come next. */
module IngestionOvertaking {
  import opened Events
  import opened Ingestion
  import opened IngestionSafety
  import opened IngestionOrder
  import opened IngestionProgress

  /** A crash and a restart. */
  function Restarted(s: State): (t: State)
    requires Shaped(s)
    ensures Shaped(t)
  {
    s.(pc := Idle, pos := s.committed, cancelled := false, processed := 0, restarts := s.restarts + 1, lap := 0)
  }

  lemma {:induction false} RestartIsRun(cfg: Config, s: State)
    requires Shaped(s)
    ensures Run(cfg, s, [Crash, Restart]) == Restarted(s)
  {
    RunSnoc(cfg, s, [], Crash);
    RunSnoc(cfg, s, [Crash], Restart);
    assert [] + [Crash] == [Crash] && [Crash] + [Restart] == [Crash, Restart];
  }

  function Polls(p: nat, m: nat): seq<Turn> {
    seq(m, _ => HEALTHY.(p := p))
  }

  /** Crash, restart, and let partition `p` be redelivered for `m` turns with nothing going wrong. */
  function Redelivered(cfg: Config, s: State, p: nat, m: nat): (t: State)
    requires Shaped(s)
    ensures Shaped(t)
  {
    AfterTurns(cfg, Restarted(s), Polls(p, m))
  }

  lemma RedeliveredMore(cfg: Config, s: State, p: nat, m: nat)
    requires Shaped(s)
    ensures Redelivered(cfg, s, p, m + 1) == AfterTurn(cfg, Redelivered(cfg, s, p, m), HEALTHY.(p := p))
  {
    assert Polls(p, m + 1)[..m] == Polls(p, m);
  }

  /** Still in order after that redelivery. */
  ghost predicate StaysOrdered(cfg: Config, raw: seq<seq<Bytes>>, ls: seq<Label>, p: nat, n: nat, m: nat, sel: Selector) {
    n <= |ls| ==> FollowsItsLog(cfg, Redelivered(cfg, Run(cfg, Init(raw), ls[..n]), p, m), p, sel)
  }

  ghost predicate FollowsItsLog(cfg: Config, s: State, p: nat, sel: Selector) {
    p < |s.raw| && Follows(cfg, s.raw[p], s.clean, p, sel)
  }

  // ----- Redelivery keeps order -----

  /** Between turns of an undisturbed process. */
  ghost predicate Calm(cfg: Config, s: State, p: nat, sel: Selector) {
    Safe(cfg, s) && p < |s.raw| && s.pc.Idle? && s.pos[p] == s.committed[p] && Ordered(cfg, s, p, sel)
  }

  /** Polling an empty partition does nothing. */
  lemma IdlePoll(cfg: Config, s: State, p: nat)
    requires Shaped(s) && s.pc.Idle? && p < |s.raw| && s.pos[p] == |s.raw[p]|
    ensures AfterTurn(cfg, s, HEALTHY.(p := p)) == s
  {
    hide StepInsert, StepPublishClean, StepPublishDlq, StepCommit, Judge, InHand;
  }

  lemma PollInTurn(cfg: Config, s: State, p: nat)
    requires Shaped(s) && s.pc.Idle? && p < |s.raw| && s.pos[p] == s.committed[p]
    ensures FetchesInTurn(cfg, s, Labels(HEALTHY.(p := p)), p)
  {
    hide Step;
    var ls := Labels(HEALTHY.(p := p));
    assert ls[0] == Fetch(p) && forall n :: 0 < n < |ls| ==> ls[n] != Fetch(p);
    assert ls[..0] == [];
  }

  lemma CalmPoll(cfg: Config, s: State, p: nat, sel: Selector)
    requires Calm(cfg, s, p, sel) && cfg.topic != ""
    ensures Calm(cfg, AfterTurn(cfg, s, HEALTHY.(p := p)), p, sel)
  {
    hide Step, AfterTurn, Ordered, Sound, StageFacts, DisposedBelowSettled, NoOvertaking, FetchesInTurn;
    var t := HEALTHY.(p := p);
    if s.pos[p] == |s.raw[p]| {
      IdlePoll(cfg, s, p);
    } else {
      PollInTurn(cfg, s, p);
      InTurnAlways(cfg, s, Labels(t), p);
      OrderedAlways(cfg, s, Labels(t), p, sel);
      TurnIsRun(cfg, s, t);
      HealthyTurn(cfg, s, t);
    }
  }

  lemma CalmRestart(cfg: Config, s: State, p: nat, sel: Selector)
    requires Safe(cfg, s) && p < |s.raw| && Ordered(cfg, s, p, sel)
    ensures Calm(cfg, Restarted(s), p, sel)
  {
    hide Step;
    RestartIsRun(cfg, s);
    SafeStep(cfg, s, Crash);
    RunSnoc(cfg, s, [], Crash);
    assert [] + [Crash] == [Crash] && [Crash] + [Restart] == [Crash, Restart];
    RunSnoc(cfg, s, [Crash], Restart);
    SafeStep(cfg, Run(cfg, s, [Crash]), Restart);
  }

  lemma {:induction false} CalmAlways(cfg: Config, s: State, p: nat, m: nat, sel: Selector)
    requires Safe(cfg, s) && p < |s.raw| && Ordered(cfg, s, p, sel) && cfg.topic != ""
    ensures Calm(cfg, Redelivered(cfg, s, p, m), p, sel)
  {
    hide Calm, AfterTurn;
    if m == 0 {
      assert Polls(p, 0) == [];
      CalmRestart(cfg, s, p, sel);
    } else {
      CalmAlways(cfg, s, p, m - 1, sel);
      RedeliveredMore(cfg, s, p, m - 1);
      CalmPoll(cfg, Redelivered(cfg, s, p, m - 1), p, sel);
    }
  }

  // ----- Redelivery after overtaking breaks order -----

  /** Redelivery passes over poison messages. */
  lemma {:induction false} PassesPoison(cfg: Config, s: State, p: nat, m: nat)
    requires Shaped(s) && p < |s.raw| && cfg.topic != "" && s.committed[p] + m <= |s.raw[p]|
    requires forall o :: s.committed[p] <= o < s.committed[p] + m ==> Judge(cfg, s.raw[p][o]).Poison?
    ensures var t := Redelivered(cfg, s, p, m);
            && t.pc.Idle? && t.raw == s.raw && t.clean == s.clean
            && t.pos == t.committed && t.committed[p] == s.committed[p] + m
  {
    hide AfterTurn, Judge;
    if m == 0 {
      assert Polls(p, 0) == [];
    } else {
      PassesPoison(cfg, s, p, m - 1);
      RedeliveredMore(cfg, s, p, m - 1);
      HealthyTurn(cfg, Redelivered(cfg, s, p, m - 1), HEALTHY.(p := p));
    }
  }

  lemma {:induction false} FirstValid(cfg: Config, log: seq<Bytes>, a: nat, b: nat) returns (q: nat)
    requires a <= b < |log| && Judge(cfg, log[b]).Deliver?
    ensures a <= q <= b && Judge(cfg, log[q]).Deliver? && forall o :: a <= o < q ==> Judge(cfg, log[o]).Poison?
    decreases b - a
  {
    if Judge(cfg, log[a]).Deliver? {
      q := a;
    } else {
      q := FirstValid(cfg, log, a + 1, b);
    }
  }

  /** With a later record last on the clean topic, redelivery publishes an earlier message behind it. */
  lemma ComesAgain(cfg: Config, t: State, p: nat, c: CleanRecord, q: nat, sel: Selector)
    requires Shaped(t) && p < |t.raw| && cfg.topic != "" && t.committed[p] <= q < c.from.o && q < |t.raw[p]|
    requires t.clean != [] && t.clean[|t.clean| - 1] == c && c.from.p == p
    requires Judge(cfg, t.raw[p][q]).Deliver? && forall o :: t.committed[p] <= o < q ==> Judge(cfg, t.raw[p][o]).Poison?
    ensures !FollowsItsLog(cfg, Redelivered(cfg, t, p, q - t.committed[p] + 1), p, sel)
  {
    hide AfterTurn, Judge, Follows, Redelivered;
    var m := q - t.committed[p];
    PassesPoison(cfg, t, p, m);
    var u := Redelivered(cfg, t, p, m);
    RedeliveredMore(cfg, t, p, m);
    HealthyTurn(cfg, u, HEALTHY.(p := p));
    var v := Redelivered(cfg, t, p, m + 1);
    var d := CleanRecord(Pos(p, q), Judge(cfg, t.raw[p][q]).reading);
    assert v.clean == t.clean + [d];
    GoingBackFollowsNothing(cfg, v.raw[p], v.clean, p, sel, |t.clean| - 1);
  }

  /** After an overtaking publish the first skipped message comes again behind the later one. */
  lemma {:induction false} OvertakingBreaksOrder(cfg: Config, s: State, l: Label, sel: Selector) returns (m: nat)
    requires Shaped(s) && cfg.topic != "" && Overtakes(cfg, s, l)
    ensures !FollowsItsLog(cfg, Redelivered(cfg, Step(cfg, s, l), s.pc.at.p, m), s.pc.at.p, sel)
  {
    hide FollowsItsLog, Redelivered, Step;
    var p := s.pc.at.p;
    var x :| Skipped(cfg, s, x);
    var q := FirstValid(cfg, s.raw[p], s.committed[p], x);
    OvertakingPublish(cfg, s, l);
    m := q - s.committed[p] + 1;
    ComesAgain(cfg, Step(cfg, s, l), p, CleanRecord(s.pc.at, Judge(cfg, InHand(s)).reading), q, sel);
  }

  lemma OvertakingPublish(cfg: Config, s: State, l: Label)
    requires Shaped(s) && Overtakes(cfg, s, l)
    ensures var t := Step(cfg, s, l);
            && t.raw == s.raw && t.committed == s.committed
            && t.clean == s.clean + [CleanRecord(s.pc.at, Judge(cfg, InHand(s)).reading)]
  {
    hide Skipped;
    JudgedIsValid(cfg, InHand(s));
  }

  lemma JudgedIsValid(cfg: Config, value: Bytes)
    ensures Judge(cfg, value).Deliver? ==> Judge(cfg, value).reading.Validate().None?
  {
  }

  lemma CalmFollows(cfg: Config, s: State, p: nat, sel: Selector)
    requires Calm(cfg, s, p, sel)
    ensures FollowsItsLog(cfg, s, p, sel)
  {
  }

  lemma NoOvertakingStaysOrdered(cfg: Config, raw: seq<seq<Bytes>>, ls: seq<Label>, p: nat, n: nat, m: nat, sel: Selector)
    requires p < |raw| && cfg.topic != "" && NoOvertaking(cfg, Init(raw), ls, p)
    ensures StaysOrdered(cfg, raw, ls, p, n, m, sel)
  {
    hide Run, Redelivered, OvertakesOn, Ordered, Calm, Sound, StageFacts, DisposedBelowSettled, FollowsItsLog;
    if n <= |ls| {
      PrefixNoOvertaking(cfg, Init(raw), ls, n, p);
      InitOrdered(cfg, raw, p, sel);
      OrderedAlways(cfg, Init(raw), ls[..n], p, sel);
      CalmAlways(cfg, Run(cfg, Init(raw), ls[..n]), p, m, sel);
      CalmFollows(cfg, Redelivered(cfg, Run(cfg, Init(raw), ls[..n]), p, m), p, sel);
    }
  }

  lemma OvertakingFailsToStay(cfg: Config, raw: seq<seq<Bytes>>, ls: seq<Label>, p: nat, n: nat, sel: Selector) returns (m: nat)
    requires cfg.topic != "" && n < |ls| && OvertakesOn(cfg, Run(cfg, Init(raw), ls[..n]), ls[n], p)
    ensures !StaysOrdered(cfg, raw, ls, p, n + 1, m, sel)
  {
    hide Step, Redelivered, Overtakes, FollowsItsLog;
    m := OvertakingBreaksOrder(cfg, Run(cfg, Init(raw), ls[..n]), ls[n], sel);
    assert ls[..n + 1][..n] == ls[..n];
  }

  /** EXACTLY THE RUNS WITHOUT OVERTAKING KEEP THE CLEAN TOPIC IN ORDER. On partition `p` no valid message is ever
      published past an uncommitted valid one if and only if, crashed at any point and redelivered for any
      number of turns, the partition's clean records follow its log. */
  lemma {:induction false} OrderedIffNoOvertaking(cfg: Config, raw: seq<seq<Bytes>>, ls: seq<Label>, p: nat)
    requires p < |raw| && cfg.topic != ""
    ensures NoOvertaking(cfg, Init(raw), ls, p) <==>
            forall n: nat, m: nat, sel: Selector :: StaysOrdered(cfg, raw, ls, p, n, m, sel)
  {
    hide StaysOrdered, OvertakesOn, Run;
    if NoOvertaking(cfg, Init(raw), ls, p) {
      forall n: nat, m: nat, sel: Selector ensures StaysOrdered(cfg, raw, ls, p, n, m, sel) {
        NoOvertakingStaysOrdered(cfg, raw, ls, p, n, m, sel);
      }
    } else {
      var n :| 0 <= n < |ls| && OvertakesOn(cfg, Run(cfg, Init(raw), ls[..n]), ls[n], p);
      var m := OvertakingFailsToStay(cfg, raw, ls, p, n, ById(""));
    }
  }
}
