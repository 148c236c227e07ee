/** The ingestion consumer as it is written: a store, producers, a reader and the loop over them,
    each updated in place. Every method is proved against the protocol of module `Ingestion`.

    Outcomes of remote effects come in as `Fate`s, so one call stands for every way it can go. */
module IngestionCode {
  import opened Events
  import opened Ingestion
  import opened IngestionProgress

  /** The readings table. */
  class Store {
    var rows: Table

    constructor ()
      ensures rows == map[]
    {
      rows := map[];
    }

    method InsertReading(r: SensorReading, fate: Fate) returns (err: bool)
      modifies this
      ensures rows == if fate.Refused? then old(rows) else InsertIfAbsent(old(rows), r)
      ensures !fate.Refused? ==> forall k :: k in rows <==> k in old(rows) || Names(k, r)
      ensures err <==> !fate.Done?
    {
      InsertAddsItsRow(rows, r);
      if !fate.Refused? {
        if KeyOf(r) !in rows {
          rows := rows[KeyOf(r) := Row(r.lat, r.lon, r.tempC)];
        }
      }
      return !fate.Done?;
    }
  }

  /** A producer and the topic behind it: the event's own check, its key, and the hash balancer that
      turns a key into a partition. */
  class Producer<T> {
    const invalid: T -> bool
    const key: T -> string
    const route: string -> nat
    var log: seq<T>

    constructor (invalid: T -> bool, key: T -> string, route: string -> nat)
      ensures this.invalid == invalid && this.key == key && this.route == route && log == []
    {
      this.invalid, this.key, this.route := invalid, key, route;
      log := [];
    }

    /** The records of partition `q`, in order. */
    ghost function Partition(records: seq<T>, q: nat): seq<T> {
      if records == [] then []
      else
        var n := |records| - 1;
        var before := Partition(records[..n], q);
        if route(key(records[n])) == q then before + [records[n]] else before
    }

    /** Validates, then appends one record at the end of the partition its key is routed to. */
    method Publish(e: T, fate: Fate) returns (err: bool)
      modifies this
      ensures log == if invalid(e) || fate.Refused? then old(log) else old(log) + [e]
      ensures err <==> invalid(e) || !fate.Done?
      ensures forall q :: Partition(log, q) ==
                if !invalid(e) && !fate.Refused? && q == route(key(e)) then Partition(old(log), q) + [e]
                else Partition(old(log), q)
    {
      if invalid(e) {
        return true;
      }
      if !fate.Refused? {
        assert (log + [e])[..|log|] == log;
        log := log + [e];
      }
      return !fate.Done?;
    }
  }

  /** The group reader: the broker's logs and committed offsets, and this process's positions. */
  class Reader {
    var raw: seq<seq<Bytes>>
    var committed: seq<nat>
    var pos: seq<nat>

    ghost predicate Valid()
      reads this
    {
      && |committed| == |pos| == |raw|
      && (forall p :: 0 <= p < |raw| ==> committed[p] <= pos[p] <= |raw[p]|)
    }

    constructor (raw: seq<seq<Bytes>>)
      ensures Valid() && this.raw == raw && committed == Zeros(|raw|) && pos == Zeros(|raw|)
    {
      this.raw := raw;
      committed := Zeros(|raw|);
      pos := Zeros(|raw|);
    }

    /** Returns the next message of partition `p` without committing it, or nothing if there is none yet;
        a fetch that fails leaves the position alone. */
    method FetchMessage(p: nat, fails: bool) returns (m: Option<Pos>, err: bool)
      requires Valid()
      modifies this`pos
      ensures Valid() && err == fails
      ensures !fails && p < |raw| && old(pos[p]) < |raw[p]| ==>
                m == Some(Pos(p, old(pos[p]))) && pos == old(pos)[p := old(pos[p]) + 1]
      ensures fails || !(p < |raw| && old(pos[p]) < |raw[p]|) ==> m.None? && pos == old(pos)
    {
      m, err := None, fails;
      if !fails && p < |raw| && pos[p] < |raw[p]| {
        m := Some(Pos(p, pos[p]));
        pos := pos[p := pos[p] + 1];
      }
    }

    method CommitMessages(at: Pos, fate: Fate) returns (err: bool)
      requires Valid() && at.p < |raw| && committed[at.p] <= at.o < pos[at.p]
      modifies this`committed
      ensures Valid()
      ensures committed == if fate.Refused? then old(committed) else old(committed)[at.p := at.o + 1]
      ensures err <==> !fate.Done?
    {
      if !fate.Refused? {
        committed := committed[at.p := at.o + 1];
      }
      return !fate.Done?;
    }
  }

  /** The per-reading work: persist, re-publish clean, count. */
  class Pipeline {
    const db: Store
    const clean: Producer<CleanRecord>
    var processed: nat

    constructor (db: Store, clean: Producer<CleanRecord>)
      ensures this.db == db && this.clean == clean && processed == 0
    {
      this.db := db;
      this.clean := clean;
      processed := 0;
    }

    /** Stops at the first failure; what had already happened stays. */
    method Handle(r: SensorReading, from: Pos, insert: Fate, publish: Fate) returns (err: bool)
      modifies this, db, clean
      ensures db.rows == if insert.Refused? then old(db.rows) else InsertIfAbsent(old(db.rows), r)
      ensures var c := CleanRecord(from, r);
              clean.log == if insert.Done? && !clean.invalid(c) && !publish.Refused? then old(clean.log) + [c] else old(clean.log)
      ensures err <==> !insert.Done? || clean.invalid(CleanRecord(from, r)) || !publish.Done?
      ensures processed == if err then old(processed) else old(processed) + 1
    {
      err := db.InsertReading(r, insert);
      if err {
        return;
      }
      err := clean.Publish(CleanRecord(from, r), publish);
      if err {
        return;
      }
      processed := processed + 1;
    }
  }

  class Consumer {
    const cfg: Config
    const reader: Reader
    const pipeline: Pipeline
    const dlq: Producer?<DeadLetter>

    // Whether the context handed to Run has been cancelled.
    var cancelled: bool

    // What the protocol remembers beyond the objects themselves.
    ghost var pc: Pc
    ghost var inserted: seq<nat>
    ghost var restarts: nat
    ghost var overruns: nat
    ghost var lap: nat

    /** The protocol state these objects are in. */
    ghost function View(): State
      reads this, reader, pipeline, pipeline.db, pipeline.clean, dlq
    {
      State(reader.raw, reader.committed, reader.pos, pipeline.db.rows, pipeline.clean.log,
            if dlq == null then [] else dlq.log, pc, cancelled, pipeline.processed, inserted, restarts, overruns, lap)
    }

    ghost predicate Valid()
      reads this, reader, pipeline, pipeline.db, pipeline.clean, dlq
    {
      && Shaped(View())
      && cfg.hasDlq == (dlq != null)
      && (dlq != null ==> dlq as object != pipeline.clean && dlq.invalid == ((d: DeadLetter) => d.Validate().Some?))
      && pipeline.clean.invalid == ((c: CleanRecord) => c.reading.Validate().Some?)
    }

    constructor (cfg: Config, reader: Reader, pipeline: Pipeline, dlq: Producer?<DeadLetter>)
      requires cfg.hasDlq == (dlq != null)
      requires dlq != null ==> dlq as object != pipeline.clean && dlq.invalid == ((d: DeadLetter) => d.Validate().Some?)
      requires pipeline.clean.invalid == ((c: CleanRecord) => c.reading.Validate().Some?)
      requires reader.committed == reader.pos == Zeros(|reader.raw|) && pipeline.db.rows == map[] && pipeline.clean.log == []
      requires pipeline.processed == 0 && (dlq != null ==> dlq.log == [])
      ensures Valid() && View() == Init(reader.raw)
      ensures this.cfg == cfg && this.reader == reader && this.pipeline == pipeline && this.dlq == dlq
    {
      this.cfg := cfg;
      this.reader := reader;
      this.pipeline := pipeline;
      this.dlq := dlq;
      pc, cancelled, inserted := Idle, false, Zeros(|reader.raw|);
      restarts, overruns, lap := 0, 0, 0;
    }

    /** SIGTERM reaches the process. */
    method CancelContext()
      requires Valid()
      modifies this`cancelled
      ensures Valid() && View() == Step(cfg, old(View()), Cancel) == CancelIf(old(View()), true)
    {
      cancelled := true;
    }

    /** A `context.Canceled` commit error counts as success. */
    method CommitOne(at: Pos, fate: Fate, canceled: bool) returns (err: bool)
      requires Valid() && pc == InFlight(at, Handled)
      modifies this`pc, reader`committed
      ensures Valid() && View() == Step(cfg, old(View()), Commit(fate, canceled))
      ensures pc == if err then Down else Idle
    {
      err := reader.CommitMessages(at, fate);
      if err && canceled && cancelled {
        err := false;
      }
      pc := if err then Down else Idle;
    }

    /** Publish the envelope before committing past the message; with no dead-letter topic, just commit. */
    method DeadLetterOne(at: Pos, reason: string, t: Turn) returns (err: bool)
      requires Valid() && pc == InFlight(at, Fetched) && Judge(cfg, InHand(View())) == Poison(reason)
      modifies this`pc, reader`committed, dlq
      ensures Valid() && View() == Step(cfg, AfterPoison(cfg, old(View()), t), Commit(t.commit, t.canceled))
      ensures pc == if err then Down else Idle
    {
      hide Step, AfterPoison;
      ghost var s := View();
      PoisonInOneGo(cfg, s, t, reason);
      if dlq != null {
        var env := DeadLetter(cfg.topic, at.p, at.o, reason, t.now, reader.raw[at.p][at.o]);
        err := dlq.Publish(env, t.dlq);
        if err {
          pc := Down;
          assert View() == AfterPoison(cfg, s, t);
          DownLabelsIdle(cfg, View(), t);
          return;
        }
      }
      pc := InFlight(at, Handled);
      assert View() == AfterPoison(cfg, s, t);
      err := CommitOne(at, t.commit, t.canceled);
    }

    /** The handler, and what the protocol remembers of it. */
    method HandleOne(at: Pos, r: SensorReading, t: Turn) returns (err: bool)
      requires Valid() && pc == InFlight(at, Fetched) && Judge(cfg, InHand(View())) == Deliver(r)
      modifies this`pc, this`inserted, pipeline, pipeline.db, pipeline.clean
      ensures Valid() && View() == AfterHandler(cfg, old(View()), t)
      ensures pc == if err then Down else InFlight(at, Handled)
    {
      hide Step, AfterHandler;
      ghost var s := View();
      HandlerInOneGo(cfg, s, t, r);
      assert !pipeline.clean.invalid(CleanRecord(at, r));
      err := pipeline.Handle(r, at, t.insert, t.publish);
      if !t.insert.Refused? {
        inserted := inserted[at.p := Max(inserted[at.p], at.o + 1)];
      }
      pc := if err then Down else InFlight(at, Handled);
      assert View() == AfterHandler(cfg, s, t);
    }

    /** Fetch, judge, handle or dead-letter, commit: one turn per element of `ts`, until something stops
        the loop. It stops without an error exactly when a fetch failed and the context was cancelled. */
    method Run(ts: seq<Turn>) returns (seen: nat, err: bool)
      requires Valid() && pc.Idle?
      modifies this, reader, pipeline, pipeline.db, pipeline.clean, dlq
      ensures Valid() && seen <= |ts| && View() == AfterTurns(cfg, old(View()), ts[..seen])
      ensures pc.Down? || (pc.Idle? && seen == |ts| && !err)
      ensures pc.Down? ==> seen > 0 && (err <==> !(ts[seen - 1].fetchFails && cancelled))
    {
      hide AfterTurn, Step;
      ghost var s0 := View();
      seen, err := 0, false;
      assert ts[..0] == [];
      while seen < |ts|
        invariant Valid() && pc.Idle? && seen <= |ts| && !err
        invariant View() == AfterTurns(cfg, s0, ts[..seen])
      {
        assert ts[..seen + 1][..seen] == ts[..seen];
        var stopped;
        stopped, err := TakeTurn(ts[seen]);
        seen := seen + 1;
        if stopped {
          return;
        }
      }
    }

    method TakeTurn(t: Turn) returns (stopped: bool, err: bool)
      requires Valid() && pc.Idle?
      modifies this, reader, pipeline, pipeline.db, pipeline.clean, dlq
      ensures Valid() && View() == AfterTurn(cfg, old(View()), t)
      ensures pc == if stopped then Down else Idle
      ensures err <==> stopped && !(t.fetchFails && cancelled)
    {
      hide Step, AfterHandler, AfterPoison, AfterFetch;
      ghost var s := View();
      var m;
      m, err := FetchOne(t);
      if err {
        DownLabelsIdle(cfg, View(), t);
        return true, !cancelled;
      }
      if m.None? {
        IdleLabelsIdle(cfg, View(), t);
        return false, false;
      }
      err := DisposeOf(m.value, t);
      stopped := err;
    }

    /** The blocking fetch, with whatever cancellation arrives before and after it. */
    method FetchOne(t: Turn) returns (m: Option<Pos>, err: bool)
      requires Valid() && pc.Idle?
      modifies this`cancelled, this`pc, this`overruns, this`lap, reader`pos
      ensures Valid() && View() == AfterFetch(cfg, old(View()), t)
      ensures err == t.fetchFails
      ensures pc == if err then Down else if m.Some? then InFlight(m.value, Fetched) else Idle
    {
      hide Step;
      if t.cancelFirst {
        CancelContext();
      }
      assert View() == CancelIf(old(View()), t.cancelFirst);
      m, err := FetchNext(t);
      if t.cancelLater {
        CancelContext();
      }
    }

    /** An error ends the loop; a message is from now on the one in hand. */
    method FetchNext(t: Turn) returns (m: Option<Pos>, err: bool)
      requires Valid() && pc.Idle?
      modifies this`pc, this`overruns, this`lap, reader`pos
      ensures Valid() && View() == Step(cfg, old(View()), FetchLabel(t))
      ensures err == t.fetchFails
      ensures pc == if err then Down else if m.Some? then InFlight(m.value, Fetched) else Idle
    {
      hide Step;
      ghost var s := View();
      FetchInOneGo(cfg, s, t);
      assert reader.Valid();
      hide Shaped;
      m, err := reader.FetchMessage(t.p, t.fetchFails);
      if err {
        pc := Down;
      } else if m.Some? {
        pc := InFlight(m.value, Fetched);
        overruns, lap := if cancelled then overruns + 1 else overruns, if cancelled then lap + 1 else lap;
      }
      assert View() == Step(cfg, s, FetchLabel(t));
    }

    /** Judge the message in hand and send it the right way. */
    method DisposeOf(at: Pos, t: Turn) returns (err: bool)
      requires Valid() && pc == InFlight(at, Fetched)
      modifies this`pc, this`inserted, reader`committed, pipeline, pipeline.db, pipeline.clean, dlq
      ensures Valid()
      ensures View() == Step(cfg, AfterPoison(cfg, AfterHandler(cfg, old(View()), t), t), Commit(t.commit, t.canceled))
      ensures pc == if err then Down else Idle
    {
      hide Step, AfterHandler, AfterPoison;
      OtherLabelsIdle(cfg, View(), t);
      match cfg.decode(reader.raw[at.p][at.o]) {
        case Undecodable(cause) =>
          err := DeadLetterOne(at, "unmarshal: " + cause, t);
        case Ok(r) =>
          var bad := r.Validate();
          if bad.Some? {
            err := DeadLetterOne(at, "validate: " + bad.value.Message(), t);
            return;
          }
          err := HandleOne(at, r, t);
          if err {
            DownLabelsIdle(cfg, View(), t);
            return;
          }
          OtherLabelsIdle(cfg, View(), t);
          err := CommitOne(at, t.commit, t.canceled);
      }
    }
  }

  predicate CanFetch(s: State, p: nat)
    requires Shaped(s)
  {
    p < |s.raw| && s.pos[p] < |s.raw[p]|
  }

  lemma FetchInOneGo(cfg: Config, s: State, t: Turn)
    requires Shaped(s) && s.pc.Idle?
    ensures Step(cfg, s, FetchLabel(t))
         == if t.fetchFails then s.(pc := Down) else if CanFetch(s, t.p) then StepFetch(s, t.p) else s
  {
  }

  /** With nothing fetched there is nothing to do. */
  lemma IdleLabelsIdle(cfg: Config, s: State, t: Turn)
    requires Shaped(s) && s.pc.Idle?
    ensures AfterHandler(cfg, s, t) == s && AfterPoison(cfg, s, t) == s && Step(cfg, s, Commit(t.commit, t.canceled)) == s
  {
    hide StepInsert, StepPublishClean, StepPublishDlq, StepCommit, Judge, InHand;
  }

  /** The two dead-letter labels taken together. */
  lemma PoisonInOneGo(cfg: Config, s: State, t: Turn, reason: string)
    requires Shaped(s) && At(s, Fetched) && Judge(cfg, InHand(s)) == Poison(reason)
    ensures var env := DeadLetter(cfg.topic, s.pc.at.p, s.pc.at.o, reason, t.now, InHand(s));
            var bad := env.Validate().Some?;
            AfterPoison(cfg, s, t) ==
            if !cfg.hasDlq then s.(pc := InFlight(s.pc.at, Handled))
            else s.(dlq := if bad || t.dlq.Refused? then s.dlq else s.dlq + [env],
                    pc := if bad || !t.dlq.Done? then Down else InFlight(s.pc.at, Handled))
  {
  }

  /** The three handler labels taken together. */
  lemma HandlerInOneGo(cfg: Config, s: State, t: Turn, r: SensorReading)
    requires Shaped(s) && At(s, Fetched) && Judge(cfg, InHand(s)) == Deliver(r)
    ensures var at, ok := s.pc.at, t.insert.Done? && t.publish.Done?;
            AfterHandler(cfg, s, t) ==
            s.(db := if t.insert.Refused? then s.db else InsertIfAbsent(s.db, r),
               inserted := if t.insert.Refused? then s.inserted else s.inserted[at.p := Max(s.inserted[at.p], at.o + 1)],
               clean := if t.insert.Done? && !t.publish.Refused? then s.clean + [CleanRecord(at, r)] else s.clean,
               processed := if ok then s.processed + 1 else s.processed,
               pc := if ok then InFlight(at, Handled) else Down)
  {
    var s1 := Step(cfg, s, Insert(t.insert));
    assert s1 == StepInsert(cfg, s, t.insert);
    if t.insert.Done? {
      assert InHand(s1) == InHand(s);
      PublishInOneGo(cfg, s1, t, r);
    }
  }

  lemma PublishInOneGo(cfg: Config, s: State, t: Turn, r: SensorReading)
    requires Shaped(s) && At(s, Inserted) && Judge(cfg, InHand(s)) == Deliver(r)
    ensures var at, ok := s.pc.at, t.publish.Done?;
            Step(cfg, Step(cfg, s, PublishClean(t.publish)), Count) ==
            s.(clean := if !t.publish.Refused? then s.clean + [CleanRecord(at, r)] else s.clean,
               processed := if ok then s.processed + 1 else s.processed,
               pc := if ok then InFlight(at, Handled) else Down)
  {
  }

  /** Nothing but a restart moves a dead process. */
  lemma DownLabelsIdle(cfg: Config, s: State, t: Turn)
    requires Shaped(s) && s.pc.Down?
    ensures AfterHandler(cfg, s, t) == s && AfterPoison(cfg, s, t) == s && Step(cfg, s, Commit(t.commit, t.canceled)) == s
  {
    hide StepInsert, StepPublishClean, StepPublishDlq, StepCommit, Judge, InHand;
  }

  lemma DownTurnIdle(cfg: Config, s: State, t: Turn)
    requires Shaped(s) && s.pc.Down?
    ensures AfterTurn(cfg, s, t) == s.(cancelled := s.cancelled || t.cancelFirst || t.cancelLater)
  {
    hide AfterHandler, AfterPoison;
    assert AfterFetch(cfg, s, t) == s.(cancelled := s.cancelled || t.cancelFirst || t.cancelLater);
    DownLabelsIdle(cfg, AfterFetch(cfg, s, t), t);
  }

  /** Once the loop has returned, further turns change nothing but whether the context is cancelled. */
  lemma {:induction false} DownIsStuck(cfg: Config, s: State, ts: seq<Turn>, i: nat)
    requires Shaped(s) && i <= |ts| && AfterTurns(cfg, s, ts[..i]).pc.Down?
    ensures AfterTurns(cfg, s, ts) == AfterTurns(cfg, s, ts[..i]).(cancelled := AfterTurns(cfg, s, ts).cancelled)
    decreases |ts| - i
  {
    hide AfterTurn;
    if i == |ts| {
      assert ts[..i] == ts;
    } else {
      assert ts[..i + 1][..i] == ts[..i];
      DownTurnIdle(cfg, AfterTurns(cfg, s, ts[..i]), ts[i]);
      DownIsStuck(cfg, s, ts, i + 1);
    }
  }
}
