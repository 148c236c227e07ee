/** The wire contract shared by every service (pkg/events): readings, dead letters and
    window aggregates, each with the check that guards it.

    Temperatures and coordinates are `real`; an instant is an `int`, nanoseconds since Go's
    zero time, so `IsZero` is `== 0`. */
module Events {

  datatype Option<+T> = None | Some(value: T)

  type Instant = int

  const SECOND: int := 1_000_000_000

  newtype Byte = b: int | 0 <= b < 256
  type Bytes = seq<Byte>

  datatype ReadingError = MissingSensorId | MissingTime | TempOutOfRange | OutOfBounds {
    function Message(): string {
      match this
      case MissingSensorId => "sensor id is required"
      case MissingTime => "timestamp is required"
      case TempOutOfRange => "temperature out of plausible range"
      case OutOfBounds => "coordinates outside Hungary"
    }
  }

  datatype SensorReading = SensorReading(sensorId: string, lat: real, lon: real, tempC: real, time: Instant) {
    /** The first failure wins, in the order the source checks. */
    function Validate(): Option<ReadingError> {
      if sensorId == "" then Some(MissingSensorId)
      else if time == 0 then Some(MissingTime)
      else if tempC < -50.0 || tempC > 60.0 then Some(TempOutOfRange)
      else if lat < 45.7 || lat > 48.6 || lon < 16.1 || lon > 22.9 then Some(OutOfBounds)
      else None
    }
  }

  /** Every rule a reading breaks. */
  ghost function Faults(r: SensorReading): set<ReadingError> {
    (if r.sensorId == "" then {MissingSensorId} else {})
    + (if r.time == 0 then {MissingTime} else {})
    + (if -50.0 <= r.tempC <= 60.0 then {} else {TempOutOfRange})
    + (if 45.7 <= r.lat <= 48.6 && 16.1 <= r.lon <= 22.9 then {} else {OutOfBounds})
  }

  function Rank(e: ReadingError): nat {
    match e
    case MissingSensorId => 0
    case MissingTime => 1
    case TempOutOfRange => 2
    case OutOfBounds => 3
  }

  /** Of the rules a reading breaks, the one that comes first. */
  ghost predicate FirstFault(r: SensorReading, e: ReadingError) {
    e in Faults(r) && forall f :: f in Faults(r) ==> Rank(e) <= Rank(f)
  }

  /** A reading passes exactly when it breaks no rule, and otherwise the first broken rule is the
      one reported. */
  lemma FirstFaultIsReported(r: SensorReading)
    ensures r.Validate().None? <==> Faults(r) == {}
    ensures forall e :: r.Validate() == Some(e) <==> FirstFault(r, e)
  {
    if r.Validate().Some? {
      assert r.Validate().value in Faults(r);
    }
    forall e, f | FirstFault(r, e) && FirstFault(r, f) ensures e == f {
      RankIsOrder(e, f);
    }
  }

  lemma RankIsOrder(e: ReadingError, f: ReadingError)
    requires Rank(e) <= Rank(f) <= Rank(e)
    ensures e == f
  {
  }

  /** The whole contract of a reading, rule by rule and in the order of the checks. */
  lemma ContractOfAReading(r: SensorReading)
    ensures var ok := r.sensorId != "" && r.time != 0 && -50.0 <= r.tempC <= 60.0
                      && 45.7 <= r.lat <= 48.6 && 16.1 <= r.lon <= 22.9;
            ok <==> Faults(r) == {}
    ensures FirstFault(r, MissingSensorId) <==> r.sensorId == ""
    ensures FirstFault(r, MissingTime) <==> r.sensorId != "" && r.time == 0
    ensures FirstFault(r, TempOutOfRange) <==> r.sensorId != "" && r.time != 0 && !(-50.0 <= r.tempC <= 60.0)
  {
    FirstFaultIsReported(r);
  }

  datatype DeadLetterError = MissingSourceTopic | MissingReason | MissingFailedAt

  datatype DeadLetter = DeadLetter(
    sourceTopic: string, partition: nat, offset: nat, reason: string, failedAt: Instant, payload: Bytes) {
    function Validate(): Option<DeadLetterError> {
      if sourceTopic == "" then Some(MissingSourceTopic)
      else if reason == "" then Some(MissingReason)
      else if failedAt == 0 then Some(MissingFailedAt)
      else None
    }
  }

  /** A dead letter passes exactly with a source, a reason and a time. */
  lemma ContractOfADeadLetter(d: DeadLetter)
    ensures d.Validate().None? <==> |d.sourceTopic| > 0 && |d.reason| > 0 && d.failedAt != 0
    ensures d.Validate() == Some(MissingSourceTopic) <==> d.sourceTopic == []
    ensures d.Validate() == Some(MissingReason) <==> d.sourceTopic != [] && d.reason == []
  {
  }

  datatype AggregateError = MissingScope | InvalidWindow | EmptyWindow | MinExceedsMax

  datatype WindowAggregate = WindowAggregate(
    scope: string, windowStart: Instant, windowEnd: Instant, avgTempC: real, minTempC: real, maxTempC: real, count: int) {
    function Validate(): Option<AggregateError> {
      if scope == "" then Some(MissingScope)
      else if windowEnd <= windowStart then Some(InvalidWindow)
      else if count <= 0 then Some(EmptyWindow)
      else if minTempC > maxTempC then Some(MinExceedsMax)
      else None
    }
  }

  /** An aggregate passes exactly with a scope, a window of positive length, a reading, and extremes in order. */
  lemma ContractOfAnAggregate(a: WindowAggregate)
    ensures a.Validate().None?
       <==> |a.scope| > 0 && a.windowStart < a.windowEnd && a.count >= 1 && a.minTempC <= a.maxTempC
    ensures a.Validate() == Some(MissingScope) <==> a.scope == []
    ensures a.Validate() == Some(InvalidWindow) <==> a.scope != [] && a.windowEnd <= a.windowStart
    ensures a.Validate() == Some(EmptyWindow) <==> a.scope != [] && a.windowStart < a.windowEnd && a.count < 1
  {
  }
}
