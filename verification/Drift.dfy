/** The temperature walk of one simulated sensor. */
module Drift {
  import opened Events
  import opened Rounding

  /** Names outside the four known ones degrade to steady. */
  datatype Pattern = Steady | Rising | Falling | Noisy | Unknown(name: string)

  const STEADY_JITTER := 0.10
  const TREND_STEP := 0.20
  const TREND_JITTER := 0.05
  const NOISY_JITTER := 1.50
  const MIN_TEMP := -45.0
  const MAX_TEMP := 55.0

  /** One draw of rand.Float64. */
  predicate IsDraw(u: real) {
    0.0 <= u < 1.0
  }

  function Jitter(u: real, magnitude: real): real {
    (u * 2.0 - 1.0) * magnitude
  }

  function Clamp(v: real, lo: real, hi: real): real {
    var up := if v < lo then lo else v;
    if up > hi then hi else up
  }

  function Moved(p: Pattern, current: real, u: real): real {
    match p
    case Rising => current + TREND_STEP + Jitter(u, TREND_JITTER)
    case Falling => current - TREND_STEP + Jitter(u, TREND_JITTER)
    case Noisy => current + Jitter(u, NOISY_JITTER)
    case _ => current + Jitter(u, STEADY_JITTER)
  }

  function Next(p: Pattern, current: real, u: real): real {
    Clamp(Round(Moved(p, current, u) * 10.0) as real / 10.0, MIN_TEMP, MAX_TEMP)
  }

  /** The temperature after one reading per draw. */
  function Walk(p: Pattern, start: real, us: seq<real>): real {
    if us == [] then start else Next(p, Walk(p, start, us[..|us| - 1]), us[|us| - 1])
  }

  ghost predicate Draws(us: seq<real>) {
    forall i :: 0 <= i < |us| ==> IsDraw(us[i])
  }

  /** A clamped, one-decimal temperature in tenths of a degree. */
  predicate InTenths(x: real, k: int) {
    x == k as real / 10.0 && -450 <= k <= 550
  }

  /** EVERY READING IS ONE-DECIMAL AND IN RANGE, whatever the pattern, the draw and the temperature
      before it. */
  lemma NextInTenths(p: Pattern, current: real, u: real) returns (k: int)
    ensures InTenths(Next(p, current, u), k) && Tenths(Next(p, current, u))
  {
    var n := Round(Moved(p, current, u) * 10.0);
    k := if n < -450 then -450 else if n > 550 then 550 else n;
    assert Next(p, current, u) * 10.0 == k as real;
  }

  /** ... so a reading built on a walk is never turned down by the shared contract. */
  lemma {:induction false} WalkedReadingIsValid(r: SensorReading, p: Pattern, start: real, us: seq<real>)
    requires r.sensorId != "" && r.time != 0 && 45.7 <= r.lat <= 48.6 && 16.1 <= r.lon <= 22.9
    requires us != [] && r.tempC == Walk(p, start, us)
    ensures r.Validate() == None
  {
    var k := NextInTenths(p, Walk(p, start, us[..|us| - 1]), us[|us| - 1]);
  }

  /** From one-decimal values a rising sensor gains 0.2, or 0.1 at a negative rounding tie, and
      stops at 55.0. */
  lemma RisingStep(current: real, k: int, u: real)
    requires InTenths(current, k) && IsDraw(u)
    ensures var gained := if u == 0.0 && k + 2 <= 0 then k + 1 else k + 2;
            InTenths(Next(Rising, current, u), if gained > 550 then 550 else gained)
  {
    var x := Moved(Rising, current, u) * 10.0;
    assert x == (k + 2) as real + (u - 0.5);
    RoundAround(k + 2, u - 0.5);
  }

  /** A falling sensor loses 0.2, or 0.3 at a negative rounding tie, and stops at -45.0. */
  lemma FallingStep(current: real, k: int, u: real)
    requires InTenths(current, k) && IsDraw(u)
    ensures var lost := if u == 0.0 && k - 2 <= 0 then k - 3 else k - 2;
            InTenths(Next(Falling, current, u), if lost < -450 then -450 else lost)
  {
    var x := Moved(Falling, current, u) * 10.0;
    assert x == (k - 2) as real + (u - 0.5);
    RoundAround(k - 2, u - 0.5);
  }

  /** A steady sensor moves at most 0.1 and a noisy one at most 1.5 per reading. */
  lemma QuietStep(p: Pattern, current: real, k: int, u: real) returns (n: int)
    requires InTenths(current, k) && IsDraw(u) && !p.Rising? && !p.Falling?
    ensures InTenths(Next(p, current, u), n)
    ensures var most := if p.Noisy? then 15 else 1; -most <= n - k <= most
  {
    n := NextInTenths(p, current, u);
    var x, most := Moved(p, current, u) * 10.0, if p.Noisy? then 15 else 1;
    RoundIsMonotone((k - most) as real, x);
    RoundIsMonotone(x, (k + most) as real);
    RoundFixesIntegers(k - most);
    RoundFixesIntegers(k + most);
  }

  /** ... and every tenth it may reach, it can reach: some draw moves it there. */
  lemma QuietStepReaches(p: Pattern, current: real, k: int, n: int) returns (u: real)
    requires InTenths(current, k) && !p.Rising? && !p.Falling? && -450 <= n <= 550
    requires var most := if p.Noisy? then 15 else 1; -most <= n - k <= most
    ensures IsDraw(u) && InTenths(Next(p, current, u), n)
  {
    var most, d := if p.Noisy? then 15.0 else 1.0, (n - k) as real;
    u := if d == -most then 0.0 else ((d - 0.25) / most + 1.0) / 2.0;
    var e := if d == -most then 0.0 else -0.25;
    assert (u * 2.0 - 1.0) * most == d + e by { Scaled(most, d + e, u); }
    var x := Moved(p, current, u) * 10.0;
    assert x == k as real + (u * 2.0 - 1.0) * most;
    RoundAround(n, e);
  }

  lemma Scaled(most: real, d: real, u: real)
    requires most > 0.0 && u == (d / most + 1.0) / 2.0
    ensures (u * 2.0 - 1.0) * most == d
  {
  }

  /** From any temperature well inside the clamp, one-decimal or not, a step is the pattern's own, within half a tenth. */
  lemma StepFromAnywhere(p: Pattern, current: real, u: real)
    requires IsDraw(u) && -43.0 <= current <= 53.0
    ensures var gained := Next(p, current, u) - current;
            match p
            case Rising => 0.10 <= gained <= 0.30
            case Falling => -0.30 <= gained <= -0.10
            case Noisy => -1.55 <= gained <= 1.55
            case _ => -0.15 <= gained <= 0.15
  {
    RoundIsNear(Moved(p, current, u) * 10.0);
  }

  /** The most readings a rising sensor can still need to reach 55.0. */
  function RisingNeed(k: int): int {
    if k >= 550 then 0 else if k >= -1 then (551 - k) / 2 else 275 - k
  }

  /** The most readings a falling sensor can still need to reach -45.0. */
  function FallingNeed(k: int): int {
    if k <= -450 then 0 else (451 + k) / 2
  }

  /** A RISING SENSOR ARRIVES. It is at 55.0 after at most `RisingNeed` readings and stays there;
      if every draw is 0 it needs exactly that many. */
  lemma {:induction false} RisingArrives(current: real, k: int, us: seq<real>) returns (n: int)
    requires InTenths(current, k) && Draws(us)
    ensures InTenths(Walk(Rising, current, us), n)
    ensures |us| >= RisingNeed(k) ==> n == 550
    ensures |us| < RisingNeed(k) ==> RisingNeed(n) <= RisingNeed(k) - |us|
    ensures (forall i :: 0 <= i < |us| ==> us[i] == 0.0) && |us| < RisingNeed(k) ==> n < 550
    ensures (forall i :: 0 <= i < |us| ==> us[i] == 0.0) && |us| < RisingNeed(k) ==> RisingNeed(n) == RisingNeed(k) - |us|
  {
    n := k;
    if us != [] {
      var before := us[..|us| - 1];
      var m := RisingArrives(current, k, before);
      RisingStep(Walk(Rising, current, before), m, us[|us| - 1]);
      var gained := if us[|us| - 1] == 0.0 && m + 2 <= 0 then m + 1 else m + 2;
      n := if gained > 550 then 550 else gained;
      assert (forall i :: 0 <= i < |us| ==> us[i] == 0.0) ==> (forall i :: 0 <= i < |before| ==> before[i] == 0.0);
    }
  }

  /** A FALLING SENSOR ARRIVES at -45.0 after at most `FallingNeed` readings and stays there; if no draw
      is 0 it needs exactly that many. */
  lemma {:induction false} FallingArrives(current: real, k: int, us: seq<real>) returns (n: int)
    requires InTenths(current, k) && Draws(us)
    ensures InTenths(Walk(Falling, current, us), n)
    ensures |us| >= FallingNeed(k) ==> n == -450
    ensures |us| < FallingNeed(k) ==> FallingNeed(n) <= FallingNeed(k) - |us|
    ensures (forall i :: 0 <= i < |us| ==> us[i] > 0.0) && |us| < FallingNeed(k) ==>
              n > -450 && FallingNeed(n) == FallingNeed(k) - |us|
  {
    n := k;
    if us != [] {
      var before := us[..|us| - 1];
      var m := FallingArrives(current, k, before);
      FallingStep(Walk(Falling, current, before), m, us[|us| - 1]);
      var lost := if us[|us| - 1] == 0.0 && m - 2 <= 0 then m - 3 else m - 2;
      n := if lost < -450 then -450 else lost;
      assert (forall i :: 0 <= i < |us| ==> us[i] > 0.0) ==> (forall i :: 0 <= i < |before| ==> before[i] > 0.0);
    }
  }

  lemma {:induction false} WalkSplits(p: Pattern, start: real, a: seq<real>, b: seq<real>)
    ensures Walk(p, start, a + b) == Walk(p, Walk(p, start, a), b)
  {
    if b == [] {
      assert a + b == a;
    } else {
      assert (a + b)[..|a + b| - 1] == a + b[..|b| - 1];
      WalkSplits(p, start, a, b[..|b| - 1]);
    }
  }

  /** TRENDS END AT THE CLAMP from any starting temperature: rising sensors within 726 readings,
      falling ones within 501, and for good. */
  lemma {:induction false} TrendsEnd(start: real, us: seq<real>)
    requires Draws(us)
    ensures |us| >= 726 ==> Walk(Rising, start, us) == MAX_TEMP
    ensures |us| >= 501 ==> Walk(Falling, start, us) == MIN_TEMP
  {
    if us != [] {
      assert us == us[..1] + us[1..] && us[..1][..0] == [];
      var kr := NextInTenths(Rising, start, us[0]);
      var kf := NextInTenths(Falling, start, us[0]);
      WalkSplits(Rising, start, us[..1], us[1..]);
      WalkSplits(Falling, start, us[..1], us[1..]);
      var nr := RisingArrives(Next(Rising, start, us[0]), kr, us[1..]);
      var nf := FallingArrives(Next(Falling, start, us[0]), kf, us[1..]);
    }
  }
}
