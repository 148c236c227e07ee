/** What no crash schedule can break: nothing reaches a topic that the raw log does not justify,
    and nothing is committed past before it has been disposed of. */
module IngestionSafety {
  import opened Events
  import opened Ingestion

  ghost predicate InLog(s: State, x: Pos) {
    x.p < |s.raw| && x.o < |s.raw[x.p]|
  }

  /** An envelope carries its message's exact address, payload and reason. */
  ghost predicate Describes(cfg: Config, s: State, d: DeadLetter) {
    && InLog(s, Pos(d.partition, d.offset))
    && d.sourceTopic == cfg.topic
    && d.payload == s.raw[d.partition][d.offset]
    && Explains(cfg, d.payload, d.reason)
  }

  /** A clean record is the valid reading of the message it came from. */
  ghost predicate Genuine(cfg: Config, s: State, c: CleanRecord) {
    InLog(s, c.from) && Carries(cfg, s.raw[c.from.p][c.from.o], c.reading)
  }

  /** A dead letter that belongs on the topic: there is one, and the letter passes its check. */
  ghost predicate Posted(cfg: Config, s: State, d: DeadLetter) {
    cfg.hasDlq && Describes(cfg, s, d) && d.Validate() == None
  }

  /** Everything published is justified by the raw log. */
  ghost predicate Sound(cfg: Config, s: State) {
    && (forall i :: 0 <= i < |s.clean| ==> Genuine(cfg, s, s.clean[i]))
    && (forall i :: 0 <= i < |s.dlq| ==> Posted(cfg, s, s.dlq[i]))
  }

  ghost predicate DeadLettered(cfg: Config, s: State, x: Pos) {
    exists i :: 0 <= i < |s.dlq| && s.dlq[i].partition == x.p && s.dlq[i].offset == x.o && Describes(cfg, s, s.dlq[i])
  }

  /** A valid message is stored and on the clean topic; a poison one has its envelope, if there
      is anywhere to put it. */
  ghost predicate Disposed(cfg: Config, s: State, x: Pos)
    requires InLog(s, x)
  {
    match cfg.decode(s.raw[x.p][x.o])
    case Ok(r) =>
      if Faults(r) == {} then HasRow(s.db, r) && CleanRecord(x, r) in s.clean
      else cfg.hasDlq ==> DeadLettered(cfg, s, x)
    case Undecodable(_) => cfg.hasDlq ==> DeadLettered(cfg, s, x)
  }

  /** The same by verdict. */
  lemma DisposedByVerdict(cfg: Config, s: State, x: Pos)
    requires InLog(s, x)
    ensures Disposed(cfg, s, x) <==>
              match Judge(cfg, s.raw[x.p][x.o])
              case Deliver(r) => KeyOf(r) in s.db && CleanRecord(x, r) in s.clean
              case Poison(_) => cfg.hasDlq ==> DeadLettered(cfg, s, x)
  {
    hide Judge, DeadLettered, HasRow, KeyOf;
    JudgedByItsFaults(cfg, s.raw[x.p][x.o]);
    if Judge(cfg, s.raw[x.p][x.o]).Deliver? {
      RowUnderKey(s.db, Judge(cfg, s.raw[x.p][x.o]).reading);
    }
  }

  /** Every offset of partition `p` below this one is finished with; a dead process only has
      its commits to show. */
  ghost function Settled(s: State, p: nat): nat
    requires Shaped(s) && p < |s.raw|
  {
    if s.pc.Down? then s.committed[p]
    else if s.pc.InFlight? && s.pc.at.p == p && (s.pc.stage.Fetched? || s.pc.stage.Inserted?) then s.pos[p] - 1
    else s.pos[p]
  }

  ghost predicate DisposedBelowSettled(cfg: Config, s: State)
    requires Shaped(s)
  {
    forall p, o :: 0 <= p < |s.raw| && 0 <= o < Settled(s, p) ==> Disposed(cfg, s, Pos(p, o))
  }

  ghost predicate StageFacts(cfg: Config, s: State)
    requires Shaped(s)
  {
    s.pc.InFlight? ==>
      match Judge(cfg, InHand(s))
      case Poison(_) => s.pc.stage.Fetched? || s.pc.stage.Handled?
      case Deliver(r) => s.pc.stage.Fetched? || KeyOf(r) in s.db
  }

  ghost predicate Safe(cfg: Config, s: State) {
    Shaped(s) && Sound(cfg, s) && StageFacts(cfg, s) && DisposedBelowSettled(cfg, s)
  }

  /** Logs, table rows and topics only grow. */
  ghost predicate Grows(s: State, t: State) {
    && |s.raw| == |t.raw|
    && (forall p :: 0 <= p < |s.raw| ==> s.raw[p] <= t.raw[p])
    && s.db.Keys <= t.db.Keys
    && s.clean <= t.clean
    && s.dlq <= t.dlq
  }

  lemma StepGrows(cfg: Config, s: State, l: Label)
    requires Shaped(s)
    ensures Grows(s, Step(cfg, s, l))
  {
  }

  lemma DisposedStays(cfg: Config, s: State, t: State, x: Pos)
    requires Grows(s, t) && InLog(s, x) && Disposed(cfg, s, x)
    ensures InLog(t, x) && Disposed(cfg, t, x)
  {
    assert s.raw[x.p] <= t.raw[x.p];
    if DeadLettered(cfg, s, x) {
      var i :| 0 <= i < |s.dlq| && s.dlq[i].partition == x.p && s.dlq[i].offset == x.o && Describes(cfg, s, s.dlq[i]);
      assert t.dlq[i] == s.dlq[i];
    }
  }

  /** What one step can publish: the message in hand, once. */
  lemma PublishStep(cfg: Config, s: State, l: Label)
    requires Shaped(s)
    ensures var t := Step(cfg, s, l);
            t.clean == s.clean
            || (s.pc.InFlight? && Judge(cfg, InHand(s)).Deliver?
                && t.clean == s.clean + [CleanRecord(s.pc.at, Judge(cfg, InHand(s)).reading)])
    ensures var t := Step(cfg, s, l);
            t.dlq == s.dlq
            || (s.pc.InFlight? && cfg.hasDlq && l.PublishDlq? && Judge(cfg, InHand(s)).Poison?
                && var d := Envelope(cfg, s, Judge(cfg, InHand(s)).reason, l.now);
                d.Validate() == None && t.dlq == s.dlq + [d])
  {
  }

  lemma GenuineStays(cfg: Config, s: State, t: State, c: CleanRecord)
    requires Grows(s, t) && Genuine(cfg, s, c)
    ensures Genuine(cfg, t, c)
  {
    assert s.raw[c.from.p] <= t.raw[c.from.p];
  }

  lemma DescribesStays(cfg: Config, s: State, t: State, d: DeadLetter)
    requires Grows(s, t) && Describes(cfg, s, d)
    ensures Describes(cfg, t, d)
  {
    assert s.raw[d.partition] <= t.raw[d.partition];
  }

  lemma PostedStep(cfg: Config, s: State, l: Label, i: nat)
    requires Shaped(s) && Sound(cfg, s) && i < |Step(cfg, s, l).dlq|
    ensures Posted(cfg, Step(cfg, s, l), Step(cfg, s, l).dlq[i])
  {
    hide Step;
    StepGrows(cfg, s, l);
    PublishStep(cfg, s, l);
    var t := Step(cfg, s, l);
    if i < |s.dlq| {
      assert t.dlq[i] == s.dlq[i];
      assert Posted(cfg, s, s.dlq[i]);
    } else {
      JudgedByItsFaults(cfg, InHand(s));
      assert Describes(cfg, s, t.dlq[i]);
    }
    DescribesStays(cfg, s, t, t.dlq[i]);
  }

  lemma GenuineStep(cfg: Config, s: State, l: Label, i: nat)
    requires Shaped(s) && Sound(cfg, s) && i < |Step(cfg, s, l).clean|
    ensures Genuine(cfg, Step(cfg, s, l), Step(cfg, s, l).clean[i])
  {
    hide Step;
    StepGrows(cfg, s, l);
    PublishStep(cfg, s, l);
    var t := Step(cfg, s, l);
    if i < |s.clean| {
      assert t.clean[i] == s.clean[i];
    } else {
      JudgedByItsFaults(cfg, InHand(s));
    }
    assert Genuine(cfg, s, t.clean[i]);
    GenuineStays(cfg, s, t, t.clean[i]);
  }

  lemma SoundStep(cfg: Config, s: State, l: Label)
    requires Shaped(s) && Sound(cfg, s)
    ensures Sound(cfg, Step(cfg, s, l))
  {
    hide Step, Posted, Genuine;
    var t := Step(cfg, s, l);
    forall i | 0 <= i < |t.dlq| ensures Posted(cfg, t, t.dlq[i]) {
      PostedStep(cfg, s, l, i);
    }
    forall i | 0 <= i < |t.clean| ensures Genuine(cfg, t, t.clean[i]) {
      GenuineStep(cfg, s, l, i);
    }
  }

  /** A publish of a valid message finds its row in the table ... */
  lemma PublishDisposes(cfg: Config, s: State, l: Label)
    requires Shaped(s) && StageFacts(cfg, s) && s.pc.InFlight? && Judge(cfg, InHand(s)).Deliver?
    requires s.pc.stage.Fetched? || s.pc.stage.Inserted?
    requires var t := Step(cfg, s, l); t.pc.InFlight? && (t.pc.stage.Published? || t.pc.stage.Handled?)
    ensures InLog(Step(cfg, s, l), s.pc.at) && Disposed(cfg, Step(cfg, s, l), s.pc.at)
  {
    var t := Step(cfg, s, l);
    assert l.PublishClean? && s.pc.stage.Inserted?;
    assert t.clean[|s.clean|] == CleanRecord(s.pc.at, Judge(cfg, InHand(s)).reading);
    DisposedByVerdict(cfg, t, s.pc.at);
  }

  /** ... and a poison message is past its step once its envelope is on its topic, if there is one. */
  lemma DeadLetterDisposes(cfg: Config, s: State, l: Label)
    requires Shaped(s) && s.pc.InFlight? && Judge(cfg, InHand(s)).Poison? && s.pc.stage.Fetched?
    requires var t := Step(cfg, s, l); t.pc.InFlight? && (t.pc.stage.Published? || t.pc.stage.Handled?)
    ensures InLog(Step(cfg, s, l), s.pc.at) && Disposed(cfg, Step(cfg, s, l), s.pc.at)
  {
    var t, x := Step(cfg, s, l), s.pc.at;
    assert l.PublishDlq? || l.SkipPoison?;
    JudgedByItsFaults(cfg, InHand(s));
    if cfg.hasDlq {
      var d := t.dlq[|s.dlq|];
      assert d.partition == x.p && d.offset == x.o && Describes(cfg, t, d);
    }
    DisposedByVerdict(cfg, t, x);
  }

  /** The message just finished is disposed of. */
  lemma FinishedIsDisposed(cfg: Config, s: State, l: Label)
    requires Safe(cfg, s) && s.pc.InFlight?
    ensures var t := Step(cfg, s, l);
            InLog(t, s.pc.at)
            && (t.pc.InFlight? && (t.pc.stage.Published? || t.pc.stage.Handled?) ==> Disposed(cfg, t, s.pc.at))
  {
    hide Step, Disposed, Judge, Faults;
    var t := Step(cfg, s, l);
    var x := s.pc.at;
    StepGrows(cfg, s, l);
    assert s.raw[x.p] <= t.raw[x.p];
    if s.pc.stage.Published? || s.pc.stage.Handled? {
      assert x.o < Settled(s, x.p);
      assert Disposed(cfg, s, Pos(x.p, x.o));
      DisposedStays(cfg, s, t, x);
    } else if t.pc.InFlight? && (t.pc.stage.Published? || t.pc.stage.Handled?) {
      if Judge(cfg, InHand(s)).Deliver? {
        PublishDisposes(cfg, s, l);
      } else {
        DeadLetterDisposes(cfg, s, l);
      }
    }
  }

  /** From `s` to `t` nothing of partition `p` was settled, or just the message in hand. */
  ghost predicate SettlesInHand(s: State, t: State, p: nat)
    requires Shaped(s) && Shaped(t) && p < |s.raw| == |t.raw|
  {
    || Settled(t, p) <= Settled(s, p)
    || (s.pc.InFlight? && s.pc.at == Pos(p, Settled(s, p)) && Settled(t, p) == Settled(s, p) + 1
        && t.pc.InFlight? && (t.pc.stage.Published? || t.pc.stage.Handled?))
  }

  /** Handling moves nothing but the message in hand. */
  lemma HandlingKeeps(cfg: Config, s: State, l: Label)
    requires Shaped(s) && (l.Insert? || l.PublishClean? || l.Count? || l.PublishDlq? || l.SkipPoison?)
    ensures var t := Step(cfg, s, l);
            && (t.raw, t.pos, t.committed) == (s.raw, s.pos, s.committed)
            && (t.pc == s.pc || (s.pc.InFlight? && (t.pc.Down? || (t.pc.InFlight? && t.pc.at == s.pc.at && !t.pc.stage.Fetched?))))
            && (s.pc.InFlight? && s.pc.stage.Handled? ==> t.pc == s.pc)
            && (s.pc.InFlight? && s.pc.stage.Published? && t.pc.InFlight? ==> t.pc.stage.Published? || t.pc.stage.Handled?)
  {
    hide Judge, InHand;
  }

  lemma SettledByHandling(cfg: Config, s: State, l: Label, p: nat)
    requires Shaped(s) && p < |s.raw|
    requires l.Insert? || l.PublishClean? || l.Count? || l.PublishDlq? || l.SkipPoison?
    ensures |Step(cfg, s, l).raw| == |s.raw| && SettlesInHand(s, Step(cfg, s, l), p)
  {
    HandlingKeeps(cfg, s, l);
    hide Step;
  }

  lemma SettledOtherwise(cfg: Config, s: State, l: Label, p: nat)
    requires Shaped(s) && p < |s.raw|
    requires !(l.Insert? || l.PublishClean? || l.Count? || l.PublishDlq? || l.SkipPoison?)
    ensures |Step(cfg, s, l).raw| == |s.raw| && SettlesInHand(s, Step(cfg, s, l), p)
  {
  }

  /** Only the message in hand can become settled by a step. */
  lemma SettledStep(cfg: Config, s: State, l: Label, p: nat)
    requires Shaped(s) && p < |s.raw|
    ensures |Step(cfg, s, l).raw| == |s.raw| && SettlesInHand(s, Step(cfg, s, l), p)
  {
    hide Step, SettlesInHand;
    if l.Insert? || l.PublishClean? || l.Count? || l.PublishDlq? || l.SkipPoison? {
      SettledByHandling(cfg, s, l, p);
    } else {
      SettledOtherwise(cfg, s, l, p);
    }
  }

  lemma DisposalStep(cfg: Config, s: State, l: Label, p: nat, o: nat)
    requires Safe(cfg, s) && p < |s.raw| && |Step(cfg, s, l).raw| == |s.raw| && o < Settled(Step(cfg, s, l), p)
    ensures Disposed(cfg, Step(cfg, s, l), Pos(p, o))
  {
    hide Step;
    SettledStep(cfg, s, l, p);
    if o < Settled(s, p) {
      StepGrows(cfg, s, l);
      assert InLog(s, Pos(p, o));
      DisposedStays(cfg, s, Step(cfg, s, l), Pos(p, o));
    } else {
      FinishedIsDisposed(cfg, s, l);
    }
  }

  lemma SafeStep(cfg: Config, s: State, l: Label)
    requires Safe(cfg, s)
    ensures Safe(cfg, Step(cfg, s, l))
  {
    hide Step;
    var t := Step(cfg, s, l);
    SoundStep(cfg, s, l);
    StageFactsStep(cfg, s, l);
    assert |t.raw| == |s.raw| by { StepGrows(cfg, s, l); }
    forall p, o | 0 <= p < |t.raw| && 0 <= o < Settled(t, p) ensures Disposed(cfg, t, Pos(p, o)) {
      DisposalStep(cfg, s, l, p, o);
    }
  }

  lemma StageFactsStep(cfg: Config, s: State, l: Label)
    requires Shaped(s) && StageFacts(cfg, s)
    ensures StageFacts(cfg, Step(cfg, s, l))
  {
    var t := Step(cfg, s, l);
    if s.pc.InFlight? && t.pc.InFlight? {
      StepGrows(cfg, s, l);
      assert s.raw[s.pc.at.p] <= t.raw[s.pc.at.p];
      assert InHand(t) == InHand(s);
    }
  }

  lemma {:induction false} SafeAlways(cfg: Config, raw: seq<seq<Bytes>>, ls: seq<Label>)
    ensures Safe(cfg, Run(cfg, Init(raw), ls))
  {
    if ls != [] {
      SafeAlways(cfg, raw, ls[..|ls| - 1]);
      SafeStep(cfg, Run(cfg, Init(raw), ls[..|ls| - 1]), ls[|ls| - 1]);
    }
  }

  /** AT-LEAST-ONCE DISPOSAL. Whatever the schedule, whatever failed or answered ambiguously, every offset a
      partition's commit has passed is disposed of: a message that decodes to a reading without faults has its
      row and its clean record, any other its envelope. */
  lemma {:induction false} CommittedIsDisposed(cfg: Config, raw: seq<seq<Bytes>>, ls: seq<Label>, x: Pos)
    requires var s := Run(cfg, Init(raw), ls); x.p < |s.raw| && x.o < s.committed[x.p]
    ensures var s := Run(cfg, Init(raw), ls); InLog(s, x) && Disposed(cfg, s, x)
  {
    SafeAlways(cfg, raw, ls);
    var s := Run(cfg, Init(raw), ls);
    assert x.o < Settled(s, x.p);
    assert Disposed(cfg, s, Pos(x.p, x.o));
  }

  /** Some publish of a dead letter read this time off its clock. */
  ghost predicate SentAt(ls: seq<Label>, at: Instant) {
    exists i :: 0 <= i < |ls| && ls[i].PublishDlq? && ls[i].now == at
  }

  lemma SentLater(ls: seq<Label>, l: Label, at: Instant)
    requires SentAt(ls, at) || (l.PublishDlq? && l.now == at)
    ensures SentAt(ls + [l], at)
  {
    if SentAt(ls, at) {
      var i :| 0 <= i < |ls| && ls[i].PublishDlq? && ls[i].now == at;
      assert (ls + [l])[i] == ls[i];
    } else {
      assert (ls + [l])[|ls|] == l;
    }
  }

  /** The time on a dead letter is the one its publish read off the clock. */
  lemma {:induction false} TimedByItsPublish(cfg: Config, raw: seq<seq<Bytes>>, ls: seq<Label>, i: nat)
    requires i < |Run(cfg, Init(raw), ls).dlq|
    ensures SentAt(ls, Run(cfg, Init(raw), ls).dlq[i].failedAt)
  {
    hide Step, SentAt;
    var before, l := ls[..|ls| - 1], ls[|ls| - 1];
    var s := Run(cfg, Init(raw), before);
    PublishStep(cfg, s, l);
    if i < |s.dlq| {
      TimedByItsPublish(cfg, raw, before, i);
    }
    SentLater(before, l, Run(cfg, Init(raw), ls).dlq[i].failedAt);
    assert ls == before + [l];
  }

  /** A dead letter that says all about its message: where it was, what it was, why it is poison. */
  ghost predicate Proves(cfg: Config, s: State, ls: seq<Label>, d: DeadLetter) {
    && cfg.hasDlq && InLog(s, Pos(d.partition, d.offset))
    && d.sourceTopic == cfg.topic && d.payload == s.raw[d.partition][d.offset]
    && Explains(cfg, d.payload, d.reason) && (forall r :: !Carries(cfg, d.payload, r))
    && d.Validate() == None && SentAt(ls, d.failedAt)
  }

  /** NOTHING IS INVENTED. Each clean record is the reading, without faults, that the raw message it came from
      decodes to. Each dead letter is a poison message's exact address and payload with the reason it is poison
      and the time of a publish, and dead letters exist only with a dead-letter topic. */
  lemma {:induction false} PublishedIsJustified(cfg: Config, raw: seq<seq<Bytes>>, ls: seq<Label>)
    ensures var s := Run(cfg, Init(raw), ls);
            forall i :: 0 <= i < |s.clean| ==>
              var c := s.clean[i];
              InLog(s, c.from) && cfg.decode(s.raw[c.from.p][c.from.o]) == Ok(c.reading) && Faults(c.reading) == {}
    ensures var s := Run(cfg, Init(raw), ls); forall i :: 0 <= i < |s.dlq| ==> Proves(cfg, s, ls, s.dlq[i])
  {
    hide Run, SentAt, Explains, Judge, Faults;
    SafeAlways(cfg, raw, ls);
    var s := Run(cfg, Init(raw), ls);
    forall i | 0 <= i < |s.clean| ensures Genuine(cfg, s, s.clean[i]) {
    }
    forall i | 0 <= i < |s.dlq| ensures Proves(cfg, s, ls, s.dlq[i]) {
      assert Posted(cfg, s, s.dlq[i]);
      JudgedByItsFaults(cfg, s.dlq[i].payload);
      TimedByItsPublish(cfg, raw, ls, i);
    }
  }
}
