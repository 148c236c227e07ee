/** A simulated sensor as it is written: a drift generator and the loop that publishes from it. */
module SensorCode {
  import opened Events
  import opened Drift
  import opened Ingestion
  import opened IngestionCode

  /** Successive temperatures for one sensor. `draw` is the random stream and `used` how much of it
      has been consumed. */
  class Drifter {
    const pattern: Pattern
    const draw: nat -> real
    var used: nat

    constructor (pattern: Pattern, draw: nat -> real)
      ensures this.pattern == pattern && this.draw == draw && used == 0
    {
      this.pattern := pattern;
      this.draw := draw;
      used := 0;
    }

    method NextJitter(magnitude: real) returns (j: real)
      modifies this
      ensures j == Jitter(draw(old(used)), magnitude) && used == old(used) + 1
    {
      j := (draw(used) * 2.0 - 1.0) * magnitude;
      used := used + 1;
    }

    method NextTemp(current: real) returns (next: real)
      modifies this
      ensures next == Next(pattern, current, draw(old(used))) && used == old(used) + 1
    {
      var j;
      match pattern {
        case Rising =>
          j := NextJitter(TREND_JITTER);
          next := current + TREND_STEP + j;
        case Falling =>
          j := NextJitter(TREND_JITTER);
          next := current - TREND_STEP + j;
        case Noisy =>
          j := NextJitter(NOISY_JITTER);
          next := current + j;
        case _ =>
          j := NextJitter(STEADY_JITTER);
          next := current + j;
      }
      next := Clamp(Rounding.Round(next * 10.0) as real / 10.0, MIN_TEMP, MAX_TEMP);
    }
  }

  /** What the `select` of the loop sees next: cancellation, or a tick whose publish goes this way. */
  datatype Event = Stop | Tick(now: Instant, fate: Fate, cancelled: bool)

  /** The ticks among the first `n` events whose write the broker did not refuse. */
  function Accepted(events: seq<Event>, n: nat): seq<nat>
    requires n <= |events| && forall i :: 0 <= i < n ==> events[i].Tick?
  {
    if n == 0 then []
    else if events[n - 1].fate.Refused? then Accepted(events, n - 1)
    else Accepted(events, n - 1) + [n - 1]
  }

  lemma {:induction false} AcceptedTicks(events: seq<Event>, n: nat)
    requires n <= |events| && forall i :: 0 <= i < n ==> events[i].Tick?
    ensures forall i :: i in Accepted(events, n) <==> 0 <= i < n && !events[i].fate.Refused?
    ensures forall j, k :: 0 <= j < k < |Accepted(events, n)| ==> Accepted(events, n)[j] < Accepted(events, n)[k]
  {
    if n > 0 {
      AcceptedTicks(events, n - 1);
      var before := Accepted(events, n - 1);
      assert forall j :: 0 <= j < |before| ==> before[j] in before;
    }
  }

  class Sensor {
    const id: string
    const lat: real
    const lon: real
    const drift: Drifter
    var temp: real

    constructor (id: string, lat: real, lon: real, startTemp: real, drift: Drifter)
      ensures this.id == id && this.lat == lat && this.lon == lon && this.drift == drift && temp == startTemp
    {
      this.id, this.lat, this.lon, this.drift, temp := id, lat, lon, drift, startTemp;
    }

    /** The temperature after `n` more readings from `start`, drawing from position `from` on. */
    function TempAfter(start: real, from: nat, n: nat): real {
      Walk(drift.pattern, start, seq(n, i requires 0 <= i => drift.draw(from + i)))
    }

    /** The reading of tick `i`. */
    function ReadingAt(start: real, from: nat, events: seq<Event>, i: nat): SensorReading
      requires i < |events| && events[i].Tick?
    {
      SensorReading(id, lat, lon, TempAfter(start, from, i + 1), events[i].now)
    }

    /** The publish of tick `i` is told it failed. */
    predicate Fails(start: real, from: nat, events: seq<Event>, i: nat)
      requires i < |events| && events[i].Tick?
    {
      ReadingAt(start, from, events, i).Validate().Some? || !events[i].fate.Done?
    }

    /** What the first `n` ticks put on the topic: one reading each, unless refused. */
    function Published(start: real, from: nat, events: seq<Event>, n: nat): seq<SensorReading>
      requires n <= |events| && forall i :: 0 <= i < n ==> events[i].Tick?
    {
      if n == 0 then []
      else
        var before, r := Published(start, from, events, n - 1), ReadingAt(start, from, events, n - 1);
        if r.Validate().Some? || events[n - 1].fate.Refused? then before else before + [r]
    }

    /** A sensor and ticks that every rule of a reading but the temperature's allows. */
    predicate Plausible(events: seq<Event>, n: nat)
      requires n <= |events|
    {
      && id != "" && 45.7 <= lat <= 48.6 && 16.1 <= lon <= 22.9
      && (forall i :: 0 <= i < n ==> events[i].Tick? && events[i].now != 0)
    }

    /** One record per tick of `ticks`, in order: this sensor, where it is, the tick's time, and the temperature
        the walk has reached at that tick. */
    predicate Records(out: seq<SensorReading>, start: real, from: nat, events: seq<Event>, ticks: seq<nat>) {
      && |out| == |ticks|
      && (forall j :: 0 <= j < |ticks| ==>
            && ticks[j] < |events| && events[ticks[j]].Tick? && out[j].time == events[ticks[j]].now
            && out[j].sensorId == id && out[j].lat == lat && out[j].lon == lon
            && out[j].tempC == TempAfter(start, from, ticks[j] + 1))
    }

    /** NO READING OF A PLAUSIBLE SENSOR IS TURNED DOWN: a publish is told it failed exactly when the broker says so ... */
    lemma OnlyTheBrokerFails(start: real, from: nat, events: seq<Event>, n: nat, i: nat)
      requires i < n <= |events| && Plausible(events, n)
      ensures ReadingAt(start, from, events, i).Validate().None?
      ensures Fails(start, from, events, i) <==> !events[i].fate.Done?
    {
      WalkedReadingIsValid(
        ReadingAt(start, from, events, i), drift.pattern, start, seq(i + 1, j requires 0 <= j => drift.draw(from + j)));
    }

    /** ... and every tick whose write is not refused puts its record on the topic. */
    lemma {:induction false} OneRecordPerTick(start: real, from: nat, events: seq<Event>, n: nat)
      requires n <= |events| && Plausible(events, n)
      ensures Records(Published(start, from, events, n), start, from, events, Accepted(events, n))
    {
      if n > 0 {
        OneRecordPerTick(start, from, events, n - 1);
        OnlyTheBrokerFails(start, from, events, n, n - 1);
        hide TempAfter, SensorReading.Validate;
        var ticks, out := Accepted(events, n - 1), Published(start, from, events, n - 1);
        assert forall j :: 0 <= j < |ticks| ==> (ticks + [n - 1])[j] == ticks[j];
        assert forall j :: 0 <= j < |out| ==> (out + [ReadingAt(start, from, events, n - 1)])[j] == out[j];
      }
    }

    /** Both together, after what was already on the topic. */
    lemma {:induction false} Plausibly(before: seq<SensorReading>, start: real, from: nat, events: seq<Event>, n: nat)
      requires n <= |events| && forall i :: 0 <= i < n ==> events[i].Tick?
      ensures Plausible(events, n) ==>
                && Records((before + Published(start, from, events, n))[|before|..], start, from, events, Accepted(events, n))
                && (forall i :: 0 <= i < n ==> (Fails(start, from, events, i) <==> !events[i].fate.Done?))
    {
      if Plausible(events, n) {
        forall i | 0 <= i < n ensures Fails(start, from, events, i) <==> !events[i].fate.Done? {
          OnlyTheBrokerFails(start, from, events, n, i);
        }
        OneRecordPerTick(start, from, events, n);
        assert (before + Published(start, from, events, n))[|before|..] == Published(start, from, events, n);
      }
    }

    lemma TempStep(start: real, from: nat, n: nat)
      ensures TempAfter(start, from, n + 1) == Next(drift.pattern, TempAfter(start, from, n), drift.draw(from + n))
    {
      var us := seq(n + 1, i requires 0 <= i => drift.draw(from + i));
      assert us[..n] == seq(n, i requires 0 <= i => drift.draw(from + i));
    }

    lemma TempStart(start: real, from: nat)
      ensures TempAfter(start, from, 0) == start
    {
    }

    /** One drift step and at most one reading per tick; the loop ends on cancellation, or when a
        publish fails while the context is cancelled, and on nothing else. */
    method Run(events: seq<Event>, pub: Producer<SensorReading>)
      requires pub.invalid == ((r: SensorReading) => r.Validate().Some?)
      modifies this, drift, pub
      ensures var n := drift.used - old(drift.used);
              && 0 <= n <= |events| && (forall i :: 0 <= i < n ==> events[i].Tick?)
              && temp == TempAfter(old(temp), old(drift.used), n)
              && pub.log == old(pub.log) + Published(old(temp), old(drift.used), events, n)
              && (forall i :: 0 <= i < n - 1 ==> !(events[i].cancelled && Fails(old(temp), old(drift.used), events, i)))
              && (n < |events| ==>
                    events[n].Stop? || (n > 0 && events[n - 1].cancelled && Fails(old(temp), old(drift.used), events, n - 1)))
      ensures var n := drift.used - old(drift.used);
              Plausible(events, n) ==>
                && Records(pub.log[|old(pub.log)|..], old(temp), old(drift.used), events, Accepted(events, n))
                && (forall i :: 0 <= i < n - 1 ==> !(events[i].cancelled && !events[i].fate.Done?))
                && (n < |events| ==> events[n].Stop? || (n > 0 && events[n - 1].cancelled && !events[n - 1].fate.Done?))
    {
      hide Walk, Next, TempAfter, SensorReading.Validate, Records, Plausible;
      ghost var start, from := temp, drift.used;
      TempStart(start, from);
      for i := 0 to |events|
        invariant drift.used == from + i
        invariant forall j :: 0 <= j < i ==> events[j].Tick?
        invariant temp == TempAfter(start, from, i)
        invariant pub.log == old(pub.log) + Published(start, from, events, i)
        invariant forall j :: 0 <= j < i ==> !(events[j].cancelled && Fails(start, from, events, j))
      {
        match events[i] {
          case Stop =>
            Plausibly(old(pub.log), start, from, events, i);
            return;
          case Tick(now, fate, cancelled) =>
            TempStep(start, from, i);
            temp := drift.NextTemp(temp);
            var r := SensorReading(id, lat, lon, temp, now);
            assert r == ReadingAt(start, from, events, i);
            var err := pub.Publish(r, fate);
            if err && cancelled {
              Plausibly(old(pub.log), start, from, events, i + 1);
              return;
            }
        }
      }
      Plausibly(old(pub.log), start, from, events, |events|);
    }
  }
}
