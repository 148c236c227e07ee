/** The readings table does not depend on the crash schedule. */
module IngestionDatabase {
  import opened Events
  import opened Ingestion
  import opened IngestionSafety

  /** Every valid reading sits on the partition its sensor id hashes to. */
  ghost predicate Keyed(cfg: Config, raw: seq<seq<Bytes>>) {
    forall p, o :: 0 <= p < |raw| && 0 <= o < |raw[p]| && Judge(cfg, raw[p][o]).Deliver? ==>
      cfg.route(Judge(cfg, raw[p][o]).reading.sensorId) == p
  }

  /** One partition's log inserted once, in order, with no crash. */
  function Fold(cfg: Config, log: seq<Bytes>): Table {
    if log == [] then map[]
    else
      var before := Fold(cfg, log[..|log| - 1]);
      match Judge(cfg, log[|log| - 1])
      case Poison(_) => before
      case Deliver(r) => InsertIfAbsent(before, r)
  }

  /** The union over the first `n` partitions of folding their prefixes. */
  function Union(cfg: Config, raw: seq<seq<Bytes>>, lens: seq<nat>, n: nat): Table
    requires n <= |raw| == |lens|
    requires forall p :: 0 <= p < |raw| ==> lens[p] <= |raw[p]|
  {
    if n == 0 then map[] else Union(cfg, raw, lens, n - 1) + Fold(cfg, raw[n - 1][..lens[n - 1]])
  }

  /** The part of the table that partition `p` is answerable for. */
  ghost predicate Tracks(cfg: Config, s: State, k: RowKey)
    requires Shaped(s)
  {
    var p := cfg.route(k.sensorId);
    if p < |s.raw| then
      var f := Fold(cfg, s.raw[p][..s.inserted[p]]);
      (k in s.db <==> k in f) && (k in f ==> s.db[k] == f[k])
    else k !in s.db
  }

  ghost predicate Covered(cfg: Config, s: State)
    requires Shaped(s)
  {
    && (forall p, o :: 0 <= p < |s.raw| && 0 <= o < Settled(s, p) && Judge(cfg, s.raw[p][o]).Deliver? ==> o < s.inserted[p])
    && (s.pc.InFlight? && !s.pc.stage.Fetched? && Judge(cfg, InHand(s)).Deliver? ==> s.pc.at.o < s.inserted[s.pc.at.p])
  }

  lemma {:induction false} FoldSkipsPoison(cfg: Config, log: seq<Bytes>, a: nat, b: nat)
    requires a <= b <= |log| && forall o :: a <= o < b ==> Judge(cfg, log[o]).Poison?
    ensures Fold(cfg, log[..a]) == Fold(cfg, log[..b])
  {
    if a < b {
      assert log[..b][..b - 1] == log[..b - 1];
      FoldSkipsPoison(cfg, log, a, b - 1);
    }
  }

  lemma {:induction false} FoldHas(cfg: Config, log: seq<Bytes>, n: nat, o: nat)
    requires o < n <= |log| && Judge(cfg, log[o]).Deliver?
    ensures KeyOf(Judge(cfg, log[o]).reading) in Fold(cfg, log[..n])
  {
    assert log[..n][..n - 1] == log[..n - 1];
    if o < n - 1 {
      FoldHas(cfg, log, n - 1, o);
    }
  }

  lemma {:induction false} FoldIsRouted(cfg: Config, raw: seq<seq<Bytes>>, p: nat, n: nat, k: RowKey)
    requires Keyed(cfg, raw) && p < |raw| && n <= |raw[p]| && k in Fold(cfg, raw[p][..n])
    ensures cfg.route(k.sensorId) == p
  {
    assert n > 0;
    assert raw[p][..n][..n - 1] == raw[p][..n - 1];
    if k in Fold(cfg, raw[p][..n - 1]) {
      FoldIsRouted(cfg, raw, p, n - 1, k);
    }
  }

  lemma InsertedGrows(cfg: Config, s: State, l: Label, p: nat)
    requires Shaped(s) && p < |s.raw|
    ensures |Step(cfg, s, l).raw| == |s.raw| && s.inserted[p] <= Step(cfg, s, l).inserted[p]
  {
  }

  lemma SameInHand(cfg: Config, s: State, l: Label)
    requires Shaped(s) && Step(cfg, s, l).pc.InFlight? && !Step(cfg, s, l).pc.stage.Fetched?
    ensures s.pc.InFlight? && s.pc.at == Step(cfg, s, l).pc.at
  {
  }

  /** A valid message in hand past its insert is below `inserted`. */
  lemma InHandInserted(cfg: Config, s: State, l: Label)
    requires Shaped(s) && Covered(cfg, s) && s.pc.InFlight? && Judge(cfg, InHand(s)).Deliver?
    ensures var t := Step(cfg, s, l);
            |t.inserted| == |s.raw| && (t.pc.InFlight? && !t.pc.stage.Fetched? ==> s.pc.at.o < t.inserted[s.pc.at.p])
  {
  }

  lemma CoveredStep(cfg: Config, s: State, l: Label)
    requires Safe(cfg, s) && Covered(cfg, s)
    ensures Covered(cfg, Step(cfg, s, l))
  {
    hide Step;
    var t := Step(cfg, s, l);
    StepGrows(cfg, s, l);
    if t.pc.InFlight? && !t.pc.stage.Fetched? {
      SameInHand(cfg, s, l);
      assert s.raw[s.pc.at.p] <= t.raw[s.pc.at.p];
      if Judge(cfg, InHand(s)).Deliver? { InHandInserted(cfg, s, l); }
    }
    forall p, o | 0 <= p < |t.raw| && 0 <= o < Settled(t, p) && Judge(cfg, t.raw[p][o]).Deliver?
      ensures o < t.inserted[p]
    {
      assert s.raw[p] <= t.raw[p];
      SettledStep(cfg, s, l, p);
      InsertedGrows(cfg, s, l, p);
    }
  }

  /** A message inserted before changes nothing ... */
  lemma ReinsertTracks(cfg: Config, s: State, r: SensorReading)
    requires Shaped(s) && Keyed(cfg, s.raw) && At(s, Fetched) && Judge(cfg, InHand(s)) == Deliver(r)
    requires s.pc.at.o < s.inserted[s.pc.at.p] && Tracks(cfg, s, KeyOf(r))
    ensures InsertIfAbsent(s.db, r) == s.db
  {
    assert cfg.route(r.sensorId) == s.pc.at.p;
    FoldHas(cfg, s.raw[s.pc.at.p], s.inserted[s.pc.at.p], s.pc.at.o);
  }

  /** ... and a new one folds its partition's log one message further. */
  lemma {:induction false} FoldFurther(cfg: Config, s: State, r: SensorReading)
    requires Safe(cfg, s) && Covered(cfg, s) && At(s, Fetched) && Judge(cfg, InHand(s)) == Deliver(r)
    requires s.inserted[s.pc.at.p] <= s.pc.at.o
    ensures var at := s.pc.at; var log := s.raw[at.p];
            Fold(cfg, log[..at.o + 1]) == InsertIfAbsent(Fold(cfg, log[..s.inserted[at.p]]), r)
  {
    var at := s.pc.at;
    var log := s.raw[at.p];
    FoldSkipsPoison(cfg, log, s.inserted[at.p], at.o);
    assert log[..at.o + 1][..at.o] == log[..at.o];
  }

  /** Inserting the message in hand is folding one message further, or nothing at all. */
  lemma InsertTracks(cfg: Config, s: State, fate: Fate, k: RowKey)
    requires Safe(cfg, s) && Covered(cfg, s) && Keyed(cfg, s.raw) && At(s, Fetched)
    requires forall k' :: Tracks(cfg, s, k')
    ensures Tracks(cfg, StepInsert(cfg, s, fate), k)
  {
    hide Fold, Sound, StageFacts, DisposedBelowSettled, Covered;
    assert Tracks(cfg, s, k);
    if Judge(cfg, InHand(s)).Deliver? && !fate.Refused? {
      var at, r := s.pc.at, Judge(cfg, InHand(s)).reading;
      assert cfg.route(r.sensorId) == at.p;
      assert Tracks(cfg, s, KeyOf(r));
      if at.o < s.inserted[at.p] {
        ReinsertTracks(cfg, s, r);
      } else {
        FoldFurther(cfg, s, r);
      }
    }
  }

  /** Only an insert touches the table. */
  lemma TableStep(cfg: Config, s: State, l: Label)
    requires Shaped(s) && !(l.Insert? && At(s, Fetched))
    ensures Step(cfg, s, l).db == s.db && Step(cfg, s, l).inserted == s.inserted
  {
  }

  lemma TracksStep(cfg: Config, s: State, l: Label, k: RowKey)
    requires Safe(cfg, s) && Covered(cfg, s) && Keyed(cfg, s.raw)
    requires forall k' :: Tracks(cfg, s, k')
    ensures Tracks(cfg, Step(cfg, s, l), k)
  {
    if l.Insert? && At(s, Fetched) {
      InsertTracks(cfg, s, l.fate, k);
    } else {
      hide Step;
      TableStep(cfg, s, l);
      StepGrows(cfg, s, l);
      assert Tracks(cfg, s, k);
      var t, p := Step(cfg, s, l), cfg.route(k.sensorId);
      if p < |s.raw| {
        assert s.raw[p] <= t.raw[p];
        assert s.raw[p][..s.inserted[p]] == t.raw[p][..t.inserted[p]];
      }
    }
  }

  lemma KeyedBefore(cfg: Config, s: State, t: State)
    requires Grows(s, t) && Keyed(cfg, t.raw)
    ensures Keyed(cfg, s.raw)
  {
    forall p, o | 0 <= p < |s.raw| && 0 <= o < |s.raw[p]| && Judge(cfg, s.raw[p][o]).Deliver?
      ensures cfg.route(Judge(cfg, s.raw[p][o]).reading.sensorId) == p
    {
      assert s.raw[p] <= t.raw[p];
      assert t.raw[p][o] == s.raw[p][o];
    }
  }

  lemma {:induction false} TracksAlways(cfg: Config, raw: seq<seq<Bytes>>, ls: seq<Label>)
    requires Keyed(cfg, Run(cfg, Init(raw), ls).raw)
    ensures Safe(cfg, Run(cfg, Init(raw), ls)) && Covered(cfg, Run(cfg, Init(raw), ls))
    ensures forall k :: Tracks(cfg, Run(cfg, Init(raw), ls), k)
  {
    SafeAlways(cfg, raw, ls);
    hide Step;
    if ls != [] {
      var s, l := Run(cfg, Init(raw), ls[..|ls| - 1]), ls[|ls| - 1];
      StepGrows(cfg, s, l);
      KeyedBefore(cfg, s, Step(cfg, s, l));
      TracksAlways(cfg, raw, ls[..|ls| - 1]);
      CoveredStep(cfg, s, l);
      forall k ensures Tracks(cfg, Step(cfg, s, l), k) {
        TracksStep(cfg, s, l, k);
      }
    }
  }

  lemma {:induction false} UnionAt(cfg: Config, raw: seq<seq<Bytes>>, lens: seq<nat>, n: nat, k: RowKey)
    requires n <= |raw| == |lens| && Keyed(cfg, raw)
    requires forall p :: 0 <= p < |raw| ==> lens[p] <= |raw[p]|
    ensures var p, u := cfg.route(k.sensorId), Union(cfg, raw, lens, n);
            if p < n then
              var f := Fold(cfg, raw[p][..lens[p]]);
              (k in u <==> k in f) && (k in f ==> u[k] == f[k])
            else k !in u
  {
    if n > 0 {
      UnionAt(cfg, raw, lens, n - 1, k);
      if k in Fold(cfg, raw[n - 1][..lens[n - 1]]) {
        FoldIsRouted(cfg, raw, n - 1, lens[n - 1], k);
      }
    }
  }

  /** THE TABLE IS A FUNCTION OF THE LOG. In every reachable state it is the union over the
      partitions of inserting, once and in order, the longest prefix ever inserted. */
  lemma {:induction false} DatabaseIsFold(cfg: Config, raw: seq<seq<Bytes>>, ls: seq<Label>)
    requires Keyed(cfg, Run(cfg, Init(raw), ls).raw)
    ensures var s := Run(cfg, Init(raw), ls); s.db == Union(cfg, s.raw, s.inserted, |s.raw|)
  {
    var s := Run(cfg, Init(raw), ls);
    TracksAlways(cfg, raw, ls);
    forall k ensures k in s.db <==> k in Union(cfg, s.raw, s.inserted, |s.raw|)
             ensures k in s.db ==> s.db[k] == Union(cfg, s.raw, s.inserted, |s.raw|)[k]
    {
      assert Tracks(cfg, s, k);
      UnionAt(cfg, s.raw, s.inserted, |s.raw|, k);
    }
  }

  /** Message `o` of a log is the first valid one for key `k`, by its sensor and its microsecond, and `row` is
      its content. */
  ghost predicate FirstWriter(cfg: Config, log: seq<Bytes>, o: nat, k: RowKey, row: Row) {
    && o < |log|
    && (match cfg.decode(log[o])
        case Ok(r) => Faults(r) == {} && Names(k, r) && row.lat == r.lat && row.lon == r.lon && row.tempC == r.tempC
        case Undecodable(_) => false)
    && (forall q, r :: 0 <= q < o && Carries(cfg, log[q], r) ==> !Names(k, r))
  }

  /** The same by verdict and row key. */
  lemma FirstByVerdict(cfg: Config, log: seq<Bytes>, o: nat, k: RowKey, row: Row)
    requires o < |log| && Judge(cfg, log[o]).Deliver?
    requires var r := Judge(cfg, log[o]).reading;
             KeyOf(r) == k && row.lat == r.lat && row.lon == r.lon && row.tempC == r.tempC
    requires forall q :: 0 <= q < o && Judge(cfg, log[q]).Deliver? ==> KeyOf(Judge(cfg, log[q]).reading) != k
    ensures FirstWriter(cfg, log, o, k, row)
  {
    hide Judge, Faults, KeyOf, Names;
    var r0 := Judge(cfg, log[o]).reading;
    JudgedByItsFaults(cfg, log[o]);
    assert Carries(cfg, log[o], r0);
    OneName(r0, k);
    forall q, r | 0 <= q < o && Carries(cfg, log[q], r) ensures !Names(k, r) {
      JudgedByItsFaults(cfg, log[q]);
      assert Judge(cfg, log[q]) == Deliver(r);
      OneName(r, k);
    }
  }

  lemma {:induction false} FoldKeepsFirst(cfg: Config, log: seq<Bytes>, k: RowKey) returns (o: nat)
    requires k in Fold(cfg, log)
    ensures FirstWriter(cfg, log, o, k, Fold(cfg, log)[k])
  {
    var n := |log| - 1;
    if k in Fold(cfg, log[..n]) {
      o := FoldKeepsFirst(cfg, log[..n], k);
      assert forall q :: 0 <= q <= o ==> log[..n][q] == log[q];
    } else {
      o := n;
      forall q | 0 <= q < o && Judge(cfg, log[q]).Deliver? ensures KeyOf(Judge(cfg, log[q]).reading) != k {
        FoldHas(cfg, log, n, q);
      }
      FirstByVerdict(cfg, log, o, k, Fold(cfg, log)[k]);
    }
  }

  /** THE FIRST WRITER WINS. Whatever was crashed and redelivered, each stored row is the content of the
      first valid message with its key, in the log of the partition its sensor is routed to. */
  lemma FirstWriterWins(cfg: Config, raw: seq<seq<Bytes>>, ls: seq<Label>, k: RowKey) returns (o: nat)
    requires Keyed(cfg, Run(cfg, Init(raw), ls).raw) && k in Run(cfg, Init(raw), ls).db
    ensures var s, p := Run(cfg, Init(raw), ls), cfg.route(k.sensorId);
            p < |s.raw| && o < s.inserted[p] && FirstWriter(cfg, s.raw[p], o, k, s.db[k])
  {
    TracksAlways(cfg, raw, ls);
    var s, p := Run(cfg, Init(raw), ls), cfg.route(k.sensorId);
    assert Tracks(cfg, s, k);
    var log := s.raw[p][..s.inserted[p]];
    o := FoldKeepsFirst(cfg, log, k);
    assert forall q :: 0 <= q <= o ==> log[q] == s.raw[p][q];
  }

  function Lengths(raw: seq<seq<Bytes>>): seq<nat> {
    seq(|raw|, p requires 0 <= p < |raw| => |raw[p]|)
  }

  /** Once everything is committed the table is the crash-free one, whatever happened on the way. */
  lemma {:induction false} DrainedDatabase(cfg: Config, raw: seq<seq<Bytes>>, ls: seq<Label>)
    requires var s := Run(cfg, Init(raw), ls); Keyed(cfg, s.raw) && s.committed == Lengths(s.raw)
    ensures var s := Run(cfg, Init(raw), ls); s.db == Union(cfg, s.raw, Lengths(s.raw), |s.raw|)
  {
    var s := Run(cfg, Init(raw), ls);
    DatabaseIsFold(cfg, raw, ls);
    TracksAlways(cfg, raw, ls);
    forall p | 0 <= p < |s.raw| ensures Fold(cfg, s.raw[p][..s.inserted[p]]) == Fold(cfg, s.raw[p][..Lengths(s.raw)[p]]) {
      FoldSkipsPoison(cfg, s.raw[p], s.inserted[p], |s.raw[p]|);
    }
    UnionCongruence(cfg, s.raw, s.inserted, Lengths(s.raw), |s.raw|);
  }

  lemma {:induction false} UnionCongruence(cfg: Config, raw: seq<seq<Bytes>>, a: seq<nat>, b: seq<nat>, n: nat)
    requires n <= |raw| == |a| == |b|
    requires forall p :: 0 <= p < |raw| ==> a[p] <= |raw[p]| && b[p] <= |raw[p]|
    requires forall p :: 0 <= p < |raw| ==> Fold(cfg, raw[p][..a[p]]) == Fold(cfg, raw[p][..b[p]])
    ensures Union(cfg, raw, a, n) == Union(cfg, raw, b, n)
  {
    if n > 0 {
      UnionCongruence(cfg, raw, a, b, n - 1);
    }
  }

  /** Some message of the logs carries a reading of this sensor and this microsecond. */
  ghost predicate Reported(cfg: Config, raw: seq<seq<Bytes>>, k: RowKey) {
    exists p, o, r :: 0 <= p < |raw| && 0 <= o < |raw[p]| && Carries(cfg, raw[p][o], r) && Names(k, r)
  }

  /** WHICH ROWS A DRAINED TABLE HAS: one for every sensor and microsecond some valid message reports, and no
      others. */
  lemma {:induction false} DrainedRows(cfg: Config, raw: seq<seq<Bytes>>, ls: seq<Label>, k: RowKey)
    requires var s := Run(cfg, Init(raw), ls); Keyed(cfg, s.raw) && s.committed == Lengths(s.raw)
    ensures var s := Run(cfg, Init(raw), ls); k in s.db <==> Reported(cfg, s.raw, k)
  {
    hide Run, Names, Judge, Faults, Fold;
    var s := Run(cfg, Init(raw), ls);
    if k in s.db {
      var o := FirstWriterWins(cfg, raw, ls, k);
      var p := cfg.route(k.sensorId);
      assert Carries(cfg, s.raw[p][o], cfg.decode(s.raw[p][o]).reading);
    }
    if p, o, r :| 0 <= p < |s.raw| && 0 <= o < |s.raw[p]| && Carries(cfg, s.raw[p][o], r) && Names(k, r) {
      CommittedRow(cfg, raw, ls, Pos(p, o), r, k);
    }
  }

  /** A committed message has its row, drained or not. */
  lemma {:induction false} CommittedRow(cfg: Config, raw: seq<seq<Bytes>>, ls: seq<Label>, x: Pos, r: SensorReading, k: RowKey)
    requires var s := Run(cfg, Init(raw), ls); x.p < |s.raw| && x.o < s.committed[x.p] && InLog(s, x)
    requires Carries(cfg, Run(cfg, Init(raw), ls).raw[x.p][x.o], r) && Names(k, r)
    ensures k in Run(cfg, Init(raw), ls).db
  {
    CommittedIsDisposed(cfg, raw, ls, x);
    hide Run, KeyOf;
    RowUnderKey(Run(cfg, Init(raw), ls).db, r);
    OneName(r, k);
  }

  /** TWO COMMITTED MESSAGES SHARE A ROW exactly when they are from one sensor and one microsecond. */
  lemma {:induction false} CommittedRowsApart(
      cfg: Config, raw: seq<seq<Bytes>>, ls: seq<Label>, x: Pos, y: Pos, a: SensorReading, b: SensorReading)
    returns (k: RowKey, l: RowKey)
    requires var s := Run(cfg, Init(raw), ls);
             x.p < |s.raw| && x.o < s.committed[x.p] && InLog(s, x) && y.p < |s.raw| && y.o < s.committed[y.p] && InLog(s, y)
    requires Carries(cfg, Run(cfg, Init(raw), ls).raw[x.p][x.o], a) && Carries(cfg, Run(cfg, Init(raw), ls).raw[y.p][y.o], b)
    ensures k in Run(cfg, Init(raw), ls).db && Names(k, a) && l in Run(cfg, Init(raw), ls).db && Names(l, b)
    ensures k == l <==> a.sensorId == b.sensorId && exists m :: InMicro(a.time, m) && InMicro(b.time, m)
  {
    hide Run, Judge, Faults;
    k, l := KeyOf(a), KeyOf(b);
    OneName(a, k);
    OneName(b, l);
    CommittedRow(cfg, raw, ls, x, a, k);
    CommittedRow(cfg, raw, ls, y, b, l);
    SharedRow(a, b);
  }

  /** SCHEDULE INDEPENDENCE. Two histories of crashes, ambiguous answers and redeliveries over the
      same log end, once drained, in the same table. */
  lemma {:induction false} DatabaseIgnoresSchedule(cfg: Config, raw1: seq<seq<Bytes>>, ls1: seq<Label>, raw2: seq<seq<Bytes>>, ls2: seq<Label>)
    requires var s1, s2 := Run(cfg, Init(raw1), ls1), Run(cfg, Init(raw2), ls2);
             s1.raw == s2.raw && Keyed(cfg, s1.raw)
             && s1.committed == Lengths(s1.raw) && s2.committed == Lengths(s2.raw)
    ensures Run(cfg, Init(raw1), ls1).db == Run(cfg, Init(raw2), ls2).db
  {
    DrainedDatabase(cfg, raw1, ls1);
    DrainedDatabase(cfg, raw2, ls2);
  }

  /** A message may be appended to partition `p` exactly when it is poison or `p` is where its
      sensor id hashes to, which is where the producer's key sends it. */
  lemma AppendKeepsKeyed(cfg: Config, raw: seq<seq<Bytes>>, p: nat, value: Bytes)
    requires Keyed(cfg, raw) && p < |raw|
    ensures Keyed(cfg, raw[p := raw[p] + [value]])
       <==> (Judge(cfg, value).Deliver? ==> cfg.route(Judge(cfg, value).reading.sensorId) == p)
  {
    var more := raw[p := raw[p] + [value]];
    assert more[p][|raw[p]|] == value;
  }
}
