/** The crash-tolerant ingestion protocol: fetch, handle (insert, publish clean, count) or
    dead-letter, then commit, with a possible crash or an ambiguous answer at every effect.

    The protocol is a state machine over labels. `Step` is total: a label that the program
    could not take in a state leaves the state unchanged, so *every* label sequence is a
    schedule and every claim below is a claim about all schedules. */
module Ingestion {
  import opened Events

  /** What a decoder makes of a message: a reading, or the text of its error. */
  datatype Decoded = Ok(reading: SensorReading) | Undecodable(cause: string)

  /** Everything the protocol takes from its surroundings. `route` is the hash balancer. */
  datatype Config = Config(topic: string, decode: Bytes -> Decoded, route: string -> nat, hasDlq: bool)

  datatype Verdict = Deliver(reading: SensorReading) | Poison(reason: string)

  /** Decode, then validate: a message is either handed to the handler or permanently bad. */
  function Judge(cfg: Config, value: Bytes): Verdict {
    match cfg.decode(value)
    case Undecodable(cause) => Poison("unmarshal: " + cause)
    case Ok(r) =>
      match r.Validate()
      case None => Deliver(r)
      case Some(e) => Poison("validate: " + e.Message())
  }

  /** The message decodes to this reading, and the reading breaks no rule. */
  ghost predicate Carries(cfg: Config, value: Bytes, r: SensorReading) {
    cfg.decode(value) == Ok(r) && Faults(r) == {}
  }

  /** Why a message is permanently bad: what the decoder said, or the first rule its reading breaks. */
  ghost predicate Explains(cfg: Config, value: Bytes, reason: string) {
    match cfg.decode(value)
    case Undecodable(cause) => reason == "unmarshal: " + cause
    case Ok(r) => exists e :: FirstFault(r, e) && reason == "validate: " + e.Message()
  }

  /** EXACTLY THE VALID READINGS ARE DELIVERED, and every other message is poison for the reason that explains it. */
  lemma JudgedByItsFaults(cfg: Config, value: Bytes)
    ensures forall r :: Judge(cfg, value) == Deliver(r) <==> Carries(cfg, value, r)
    ensures forall reason :: Judge(cfg, value) == Poison(reason) <==> Explains(cfg, value, reason)
  {
    if cfg.decode(value).Ok? {
      var r := cfg.decode(value).reading;
      FirstFaultIsReported(r);
      if Faults(r) != {} {
        assert FirstFault(r, r.Validate().value);
      }
    }
  }

  /** The reasons, word by word. */
  lemma ReasonsSpelledOut(cfg: Config, value: Bytes, r: SensorReading)
    requires cfg.decode(value) == Ok(r)
    ensures r.sensorId == "" ==> Judge(cfg, value) == Poison("validate: " + "sensor id is required")
    ensures r.sensorId != "" && r.time == 0 ==> Judge(cfg, value) == Poison("validate: " + "timestamp is required")
    ensures r.sensorId != "" && r.time != 0 && !(-50.0 <= r.tempC <= 60.0) ==>
              Judge(cfg, value) == Poison("validate: " + "temperature out of plausible range")
    ensures r.sensorId != "" && r.time != 0 && -50.0 <= r.tempC <= 60.0 && !(45.7 <= r.lat <= 48.6 && 16.1 <= r.lon <= 22.9) ==>
              Judge(cfg, value) == Poison("validate: " + "coordinates outside Hungary")
  {
  }

  /** PRIMARY KEY (sensor_id, ts). A TIMESTAMPTZ keeps whole microseconds. */
  datatype RowKey = RowKey(sensorId: string, micros: int)
  datatype Row = Row(lat: real, lon: real, tempC: real)
  type Table = map<RowKey, Row>

  function KeyOf(r: SensorReading): RowKey {
    RowKey(r.sensorId, r.time / 1000)
  }

  /** INSERT ... ON CONFLICT (sensor_id, ts) DO NOTHING. */
  function InsertIfAbsent(db: Table, r: SensorReading): Table {
    if KeyOf(r) in db then db else db[KeyOf(r) := Row(r.lat, r.lon, r.tempC)]
  }

  /** `m` is the whole microsecond that `t` falls in. */
  predicate InMicro(t: Instant, m: int) {
    m * 1000 <= t < (m + 1) * 1000
  }

  /** A key with the reading's own sensor and the microsecond of its own time. */
  predicate Names(k: RowKey, r: SensorReading) {
    k.sensorId == r.sensorId && InMicro(r.time, k.micros)
  }

  ghost predicate HasRow(db: Table, r: SensorReading) {
    exists k :: k in db && Names(k, r)
  }

  lemma OneName(r: SensorReading, k: RowKey)
    ensures KeyOf(r) == k <==> Names(k, r)
  {
  }

  lemma RowUnderKey(db: Table, r: SensorReading)
    ensures HasRow(db, r) <==> KeyOf(r) in db
  {
    OneName(r, KeyOf(r));
    if k :| k in db && Names(k, r) {
      OneName(r, k);
    }
  }

  /** WHEN TWO READINGS SHARE A ROW: exactly when they come from one sensor and within one microsecond. */
  lemma SharedRow(a: SensorReading, b: SensorReading)
    ensures KeyOf(a) == KeyOf(b) <==> a.sensorId == b.sensorId && exists m :: InMicro(a.time, m) && InMicro(b.time, m)
  {
    OneName(a, KeyOf(a));
    OneName(b, KeyOf(b));
    if m :| InMicro(a.time, m) && InMicro(b.time, m) {
      OneName(a, RowKey(a.sensorId, m));
      OneName(b, RowKey(b.sensorId, m));
    }
  }

  /** An insert adds the row of its reading, with the reading's content, unless there is one; and nothing else. */
  lemma InsertAddsItsRow(db: Table, r: SensorReading)
    ensures forall k :: k in InsertIfAbsent(db, r) <==> k in db || Names(k, r)
    ensures forall k :: k in db ==> InsertIfAbsent(db, r)[k] == db[k]
    ensures forall k :: Names(k, r) && k !in db ==>
              var row := InsertIfAbsent(db, r)[k]; row.lat == r.lat && row.lon == r.lon && row.tempC == r.tempC
  {
    OneName(r, KeyOf(r));
    forall k | Names(k, r) ensures k == KeyOf(r) {
      OneName(r, k);
    }
  }

  /** A message's place in the raw topic. */
  datatype Pos = Pos(p: nat, o: nat)

  /** A clean-topic record; `from` remembers which raw message it came from. */
  datatype CleanRecord = CleanRecord(from: Pos, reading: SensorReading)

  /** How far the message in hand has got. `Handled` means only the commit is left. */
  datatype Stage = Fetched | Inserted | Published | Handled

  datatype Pc = Idle | InFlight(at: Pos, stage: Stage) | Down

  /** `raw`, `committed`, `db`, `clean` and `dlq` survive a crash; `pos`, `pc`, `cancelled` and
      `processed` belong to the running process. The last four fields are history:
      `inserted[p]` bounds the longest prefix of partition `p` ever inserted, `overruns` counts
      fetches that returned a message although the context was cancelled, `lap` those of the
      current process. */
  datatype State = State(
    raw: seq<seq<Bytes>>, committed: seq<nat>, pos: seq<nat>,
    db: Table, clean: seq<CleanRecord>, dlq: seq<DeadLetter>,
    pc: Pc, cancelled: bool, processed: nat,
    inserted: seq<nat>, restarts: nat, overruns: nat, lap: nat)

  /** Outcome of one remote effect: done; refused without effect; or done although the caller
      was told it failed. */
  datatype Fate = Done | Refused | Ambiguous

  datatype Label =
    | Append(p: nat, value: Bytes)
    | Cancel
    | Crash
    | Restart
    | Fetch(p: nat)
    | FetchFails
    | Insert(fate: Fate)
    | PublishClean(fate: Fate)
    | Count
    | PublishDlq(fate: Fate, now: Instant)
    | SkipPoison
    | Commit(fate: Fate, canceled: bool)

  function Zeros(n: nat): seq<nat> {
    seq(n, _ => 0)
  }

  function Init(raw: seq<seq<Bytes>>): State {
    State(raw, Zeros(|raw|), Zeros(|raw|), map[], [], [], Idle, false, 0, Zeros(|raw|), 0, 0, 0)
  }

  /** Offsets are ordered and the message in hand is the last one fetched of its partition. */
  ghost predicate Shaped(s: State) {
    && |s.committed| == |s.pos| == |s.inserted| == |s.raw|
    && (forall p :: 0 <= p < |s.raw| ==> s.committed[p] <= s.pos[p] <= |s.raw[p]| && s.inserted[p] <= |s.raw[p]|)
    && (s.pc.InFlight? ==>
          && s.pc.at.p < |s.raw|
          && s.pos[s.pc.at.p] == s.pc.at.o + 1
          && s.committed[s.pc.at.p] <= s.pc.at.o)
  }

  /** The message in hand. */
  function InHand(s: State): Bytes
    requires Shaped(s) && s.pc.InFlight?
  {
    s.raw[s.pc.at.p][s.pc.at.o]
  }

  function Envelope(cfg: Config, s: State, reason: string, now: Instant): DeadLetter
    requires Shaped(s) && s.pc.InFlight?
  {
    DeadLetter(cfg.topic, s.pc.at.p, s.pc.at.o, reason, now, InHand(s))
  }

  function Max(a: nat, b: nat): nat {
    if a < b then b else a
  }

  /** After an effect: go on when told it is done, otherwise `Run` returns and the process exits. */
  function After(s: State, fate: Fate, next: Stage): Pc
    requires s.pc.InFlight?
  {
    if fate.Done? then InFlight(s.pc.at, next) else Down
  }

  function StepInsert(cfg: Config, s: State, fate: Fate): (t: State)
    requires Shaped(s) && s.pc.InFlight?
    ensures Shaped(t)
  {
    match Judge(cfg, InHand(s))
    case Poison(_) => s
    case Deliver(r) =>
      var at := s.pc.at;
      if fate.Refused? then s.(pc := Down)
      else s.(db := InsertIfAbsent(s.db, r),
              inserted := s.inserted[at.p := Max(s.inserted[at.p], at.o + 1)],
              pc := After(s, fate, Inserted))
  }

  /** The producer validates again before it writes. */
  function StepPublishClean(cfg: Config, s: State, fate: Fate): (t: State)
    requires Shaped(s) && s.pc.InFlight?
    ensures Shaped(t)
  {
    match Judge(cfg, InHand(s))
    case Poison(_) => s
    case Deliver(r) =>
      if r.Validate().Some? || fate.Refused? then s.(pc := Down)
      else s.(clean := s.clean + [CleanRecord(s.pc.at, r)], pc := After(s, fate, Published))
  }

  function StepPublishDlq(cfg: Config, s: State, fate: Fate, now: Instant): (t: State)
    requires Shaped(s) && s.pc.InFlight?
    ensures Shaped(t)
  {
    match Judge(cfg, InHand(s))
    case Deliver(_) => s
    case Poison(reason) =>
      var env := Envelope(cfg, s, reason, now);
      if !cfg.hasDlq then s
      else if env.Validate().Some? || fate.Refused? then s.(pc := Down)
      else s.(dlq := s.dlq + [env], pc := After(s, fate, Handled))
  }

  /** A commit error that is `context.Canceled` is reported as success, so the loop goes on. */
  function StepCommit(s: State, fate: Fate, canceled: bool): (t: State)
    requires Shaped(s) && s.pc.InFlight?
    ensures Shaped(t)
  {
    var at := s.pc.at;
    var committed := if fate.Refused? then s.committed else s.committed[at.p := at.o + 1];
    var pc := if fate.Done? || (canceled && s.cancelled) then Idle else Down;
    s.(committed := committed, pc := pc)
  }

  function StepFetch(s: State, p: nat): (t: State)
    requires Shaped(s) && p < |s.raw| && s.pos[p] < |s.raw[p]|
    ensures Shaped(t)
  {
    var over := if s.cancelled then 1 else 0;
    s.(pc := InFlight(Pos(p, s.pos[p]), Fetched), pos := s.pos[p := s.pos[p] + 1],
       overruns := s.overruns + over, lap := s.lap + over)
  }

  function StepAppend(s: State, p: nat, value: Bytes): (t: State)
    requires Shaped(s) && p < |s.raw|
    ensures Shaped(t)
  {
    s.(raw := s.raw[p := s.raw[p] + [value]])
  }

  predicate At(s: State, stage: Stage) {
    s.pc.InFlight? && s.pc.stage == stage
  }

  function Step(cfg: Config, s: State, l: Label): (t: State)
    requires Shaped(s)
    ensures Shaped(t)
  {
    match l
    case Append(p, value) => if p < |s.raw| then StepAppend(s, p, value) else s
    case Cancel => s.(cancelled := true)
    case Crash => s.(pc := Down)
    case Restart =>
      if s.pc.Down? then
        s.(pc := Idle, pos := s.committed, cancelled := false, processed := 0, restarts := s.restarts + 1, lap := 0)
      else s
    case Fetch(p) => if s.pc.Idle? && p < |s.raw| && s.pos[p] < |s.raw[p]| then StepFetch(s, p) else s
    case FetchFails => if s.pc.Idle? then s.(pc := Down) else s
    case Insert(fate) => if At(s, Fetched) then StepInsert(cfg, s, fate) else s
    case PublishClean(fate) => if At(s, Inserted) then StepPublishClean(cfg, s, fate) else s
    case Count => if At(s, Published) then s.(processed := s.processed + 1, pc := InFlight(s.pc.at, Handled)) else s
    case PublishDlq(fate, now) => if At(s, Fetched) then StepPublishDlq(cfg, s, fate, now) else s
    case SkipPoison =>
      if At(s, Fetched) && Judge(cfg, InHand(s)).Poison? && !cfg.hasDlq then s.(pc := InFlight(s.pc.at, Handled)) else s
    case Commit(fate, canceled) => if At(s, Handled) then StepCommit(s, fate, canceled) else s
  }

  /** A whole schedule, from any state. */
  function Run(cfg: Config, s: State, ls: seq<Label>): (t: State)
    requires Shaped(s)
    ensures Shaped(t)
  {
    if ls == [] then s else Step(cfg, Run(cfg, s, ls[..|ls| - 1]), ls[|ls| - 1])
  }

  lemma {:induction false} RunSnoc(cfg: Config, s: State, ls: seq<Label>, l: Label)
    requires Shaped(s)
    ensures Run(cfg, s, ls + [l]) == Step(cfg, Run(cfg, s, ls), l)
  {
    assert (ls + [l])[..|ls|] == ls;
  }

  lemma {:induction false} RunConcat(cfg: Config, s: State, a: seq<Label>, b: seq<Label>)
    requires Shaped(s)
    ensures Run(cfg, s, a + b) == Run(cfg, Run(cfg, s, a), b)
  {
    hide Step;
    if b == [] {
      assert a + b == a;
    } else {
      RunConcat(cfg, s, a, b[..|b| - 1]);
      RunSnoc(cfg, s, a + b[..|b| - 1], b[|b| - 1]);
      assert a + b == a + b[..|b| - 1] + [b[|b| - 1]];
    }
  }

  /** A refused effect leaves only a process that is down; an ambiguous one has all the effect of one that is done, and
      the process is down all the same. */
  ghost predicate Faulty(s: State, refused: State, ambiguous: State, done: State) {
    refused == s.(pc := Down) && ambiguous == done.(pc := Down)
  }

  lemma InsertMayFail(cfg: Config, s: State)
    requires Shaped(s) && At(s, Fetched) && Judge(cfg, InHand(s)).Deliver?
    ensures Faulty(s, Step(cfg, s, Insert(Refused)), Step(cfg, s, Insert(Ambiguous)), Step(cfg, s, Insert(Done)))
  {
  }

  lemma PublishMayFail(cfg: Config, s: State)
    requires Shaped(s) && At(s, Inserted) && Judge(cfg, InHand(s)).Deliver?
    ensures Faulty(s, Step(cfg, s, PublishClean(Refused)), Step(cfg, s, PublishClean(Ambiguous)), Step(cfg, s, PublishClean(Done)))
  {
  }

  lemma DeadLetterMayFail(cfg: Config, s: State, now: Instant)
    requires Shaped(s) && At(s, Fetched) && Judge(cfg, InHand(s)).Poison? && cfg.hasDlq
    ensures Faulty(s, Step(cfg, s, PublishDlq(Refused, now)), Step(cfg, s, PublishDlq(Ambiguous, now)),
                   Step(cfg, s, PublishDlq(Done, now)))
  {
  }

  lemma CommitMayFail(cfg: Config, s: State)
    requires Shaped(s) && At(s, Handled)
    ensures Faulty(s, Step(cfg, s, Commit(Refused, false)), Step(cfg, s, Commit(Ambiguous, false)), Step(cfg, s, Commit(Done, false)))
  {
  }

  /** WHAT AN OUTCOME MEANS, for each of the four effects. */
  lemma AmbiguousIsDoneUnnoticed(cfg: Config, s: State, now: Instant)
    requires Shaped(s) && s.pc.InFlight?
    ensures At(s, Fetched) && Judge(cfg, InHand(s)).Deliver? ==>
              Faulty(s, Step(cfg, s, Insert(Refused)), Step(cfg, s, Insert(Ambiguous)), Step(cfg, s, Insert(Done)))
    ensures At(s, Inserted) && Judge(cfg, InHand(s)).Deliver? ==>
              Faulty(s, Step(cfg, s, PublishClean(Refused)), Step(cfg, s, PublishClean(Ambiguous)), Step(cfg, s, PublishClean(Done)))
    ensures At(s, Fetched) && Judge(cfg, InHand(s)).Poison? && cfg.hasDlq ==>
              Faulty(s, Step(cfg, s, PublishDlq(Refused, now)), Step(cfg, s, PublishDlq(Ambiguous, now)),
                     Step(cfg, s, PublishDlq(Done, now)))
    ensures At(s, Handled) ==>
              Faulty(s, Step(cfg, s, Commit(Refused, false)), Step(cfg, s, Commit(Ambiguous, false)), Step(cfg, s, Commit(Done, false)))
  {
    hide Step, Faulty, Judge;
    if At(s, Handled) {
      CommitMayFail(cfg, s);
    } else if At(s, Inserted) && Judge(cfg, InHand(s)).Deliver? {
      PublishMayFail(cfg, s);
    } else if At(s, Fetched) && Judge(cfg, InHand(s)).Deliver? {
      InsertMayFail(cfg, s);
    } else if At(s, Fetched) && cfg.hasDlq {
      DeadLetterMayFail(cfg, s, now);
    }
  }

  /** A cancelled commit is taken for a success: the loop goes on, whatever became of the commit. */
  lemma CancelledCommitGoesOn(cfg: Config, s: State, fate: Fate)
    requires Shaped(s) && At(s, Handled)
    ensures var t := Step(cfg, s, Commit(fate, true));
            && t.pc == (if fate.Done? || s.cancelled then Idle else Down)
            && t == Step(cfg, s, Commit(fate, false)).(pc := t.pc)
  {
  }
}
