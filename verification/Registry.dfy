/** Registered sensors (pkg/registry): the entry check, and the index/hash pair Redis keeps. */
module Registry {
  import opened Events
  import Drift

  const MIN_INTERVAL: int := 1 * SECOND
  const MAX_INTERVAL: int := 30 * SECOND

  datatype SensorError = BadReading(cause: ReadingError) | InvalidPattern | IntervalOutOfRange

  /** What the simulator needs to run a worker. */
  datatype Sensor = Sensor(
    id: string, lat: real, lon: real, startTempC: real, pattern: Drift.Pattern, interval: int) {
    /** Borrows the reading's own rules by validating a probe; `now` is the probe's timestamp. */
    function Validate(now: Instant): Option<SensorError>
      requires now != 0
    {
      match SensorReading(id, lat, lon, startTempC, now).Validate()
      case Some(e) => Some(BadReading(e))
      case None =>
        if pattern.Unknown? then Some(InvalidPattern)
        else if interval < MIN_INTERVAL || interval > MAX_INTERVAL then Some(IntervalOutOfRange)
        else None
    }
  }

  /** WHICH SENSORS PASS: those whose probe breaks no rule of a reading, with one of the four patterns and an interval
      of 1 to 30 seconds; any other is refused for the first of these that fails. */
  lemma WhichSensorsPass(x: Sensor, now: Instant)
    requires now != 0
    ensures var faults := Faults(SensorReading(x.id, x.lat, x.lon, x.startTempC, now));
            var known := x.pattern in {Drift.Steady, Drift.Rising, Drift.Falling, Drift.Noisy};
            var slow := 1_000_000_000 <= x.interval <= 30_000_000_000;
            && (x.Validate(now).None? <==> faults == {} && known && slow)
            && (x.Validate(now) == Some(InvalidPattern) <==> faults == {} && !known)
            && (x.Validate(now) == Some(IntervalOutOfRange) <==> faults == {} && known && !slow)
            && (forall e :: x.Validate(now) == Some(BadReading(e))
                  <==> FirstFault(SensorReading(x.id, x.lat, x.lon, x.startTempC, now), e))
  {
    FirstFaultIsReported(SensorReading(x.id, x.lat, x.lon, x.startTempC, now));
  }

  /** The `sensors` set and the `sensor:<id>` hashes. */
  datatype Store = Store(index: set<string>, hashes: map<string, Sensor>)

  /** HSET and SADD in one transaction. */
  function Put(s: Store, x: Sensor): Store {
    Store(s.index + {x.id}, s.hashes[x.id := x])
  }

  /** DEL and SREM in one transaction. */
  function Delete(s: Store, id: string): Store {
    Store(s.index - {id}, s.hashes - {id})
  }

  /** The index lists exactly the stored hashes, each under its own id and valid. */
  ghost predicate Consistent(s: Store) {
    && s.index == s.hashes.Keys
    && (forall id :: id in s.hashes ==> s.hashes[id].id == id && s.hashes[id].Validate(1).None?)
  }

  lemma PutIsConsistent(s: Store, x: Sensor, now: Instant)
    requires Consistent(s) && now != 0 && x.Validate(now).None?
    ensures Consistent(Put(s, x))
    ensures forall id :: id in Put(s, x).hashes <==> id == x.id || id in s.hashes
    ensures forall id :: id in Put(s, x).hashes ==> Put(s, x).hashes[id] == if id == x.id then x else s.hashes[id]
  {
  }

  lemma DeleteIsConsistent(s: Store, id: string)
    requires Consistent(s)
    ensures Consistent(Delete(s, id))
    ensures forall i :: i in Delete(s, id).hashes <==> i != id && i in s.hashes
    ensures forall i :: i in Delete(s, id).hashes ==> Delete(s, id).hashes[i] == s.hashes[i]
  {
    assert Delete(s, id).index == Delete(s, id).hashes.Keys;
  }

  /** A REGISTERED SENSOR ONLY EMITS VALID READINGS: whatever its pattern and draws, every reading
      its worker builds passes the shared contract. */
  lemma {:induction false} RegisteredSensorEmitsValid(x: Sensor, checkedAt: Instant, now: Instant, us: seq<real>)
    requires checkedAt != 0 && x.Validate(checkedAt).None? && now != 0 && us != []
    ensures SensorReading(x.id, x.lat, x.lon, Drift.Walk(x.pattern, x.startTempC, us), now).Validate().None?
  {
    Drift.WalkedReadingIsValid(
      SensorReading(x.id, x.lat, x.lon, Drift.Walk(x.pattern, x.startTempC, us), now), x.pattern, x.startTempC, us);
  }
}
